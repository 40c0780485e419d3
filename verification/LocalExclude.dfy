/** The local Git exclusion: one rule, activated by a single byte so that no partial
    write changes what is ignored. */
module LocalExclude {
  import opened Basics
  import opened ConfigFiles
  import opened ConfigText

  const SLASH: Byte := 47
  const EXCLUDE_LIMIT := 65536

  /** The bytes of "/.factory/backups/". */
  const RULE: Bytes := [47, 46, 102, 97, 99, 116, 111, 114, 121, 47, 98, 97, 99, 107, 117, 112, 115, 47]

  /** A line that Git reads as a pattern. */
  predicate Pattern(line: Bytes) {
    line != [] && line[0] != HASH
  }

  function Patterns(lines: seq<Bytes>): seq<Bytes> {
    if lines == [] then []
    else (if Pattern(lines[0]) then [lines[0]] else []) + Patterns(lines[1..])
  }

  function ActiveLines(data: Bytes): seq<Bytes> {
    Patterns(Lines(Parse(data)))
  }

  lemma {:induction false} PatternsMore(a: seq<Bytes>, b: seq<Bytes>)
    ensures Patterns(a + b) == Patterns(a) + Patterns(b)
  {
    if a == [] {
      assert a + b == b;
    } else {
      assert (a + b)[1..] == a[1..] + b;
      PatternsMore(a[1..], b);
    }
  }

  lemma PatternsOne(line: Bytes)
    ensures Patterns([line]) == if Pattern(line) then [line] else []
  {
    assert |[line][1..]| == 0;
  }

  /** Bytes appended to a file join its last line. */
  lemma {:induction false} ParseMore(data: Bytes, more: Bytes)
    ensures
      var a: Document := Parse(data);
      var b: Document := Parse(a.last + more);
      Parse(data + more) == Document(a.rows + b.rows, b.last)
  {
    hide IndexOf, Parse, Unparse;
    var a := Parse(data);
    var b := Parse(a.last + more);
    UnparseParse(data);
    UnparseParse(a.last + more);
    var doc := Document(a.rows + b.rows, b.last);
    UnparsedTogether(a, b, more);
    ParseUnparse(doc);
  }

  lemma UnparsedTogether(a: Document, b: Document, more: Bytes)
    requires Unparse(b) == a.last + more
    ensures Unparse(Document(a.rows + b.rows, b.last)) == Unparse(a) + more
  {
    JoinMore(a.rows, b.rows);
    assert Unparse(Document(a.rows + b.rows, b.last)) == Join(a.rows) + (Join(b.rows) + b.last);
  }

  // ----- the staged append -----

  /** A missing final newline is supplied, so that the rule starts its own line. */
  function Leading(original: Bytes): Bytes {
    if original != [] && original[|original| - 1] != LF then [LF] else []
  }

  function Addition(original: Bytes): Bytes {
    Leading(original) + RULE + [LF]
  }

  /** The same with a comment sign in the rule's first place. */
  function Stage(original: Bytes): Bytes {
    Leading(original) + [HASH] + RULE[1..] + [LF]
  }

  function LineOf(first: Byte): Bytes {
    [first] + RULE[1..]
  }

  lemma LastOf(data: Bytes)
    ensures Leading(data) == [] <==> Parse(data).last == []
  {
    hide Parse, IndexOf;
    UnparseParse(data);
    var doc := Parse(data);
    if doc.last != [] {
      assert data[|data| - 1] == doc.last[|doc.last| - 1];
      assert data[|data| - 1] in doc.last;
    } else if doc.rows != [] {
      var k := |doc.rows| - 1;
      var row := doc.rows[k];
      assert doc.rows == doc.rows[..k] + [row];
      JoinMore(doc.rows[..k], [row]);
      JoinOne(row);
      assert data[|data| - 1] == LF;
    }
  }

  /** The active lines once something was appended on lines of its own. */
  lemma ActiveMore(original: Bytes, more: Bytes)
    requires Leading(original) <= more
    ensures ActiveLines(original + more)
         == ActiveLines(original) + Patterns(Lines(Parse(more[|Leading(original)|..])))
  {
    hide Parse, IndexOf;
    LastOf(original);
    ParseMore(original, more);
    var a := Parse(original);
    if a.last == [] {
      assert a.last + more == more;
      var b := Parse(more);
      PatternsMore(a.rows + b.rows, [b.last]);
      PatternsMore(a.rows, b.rows);
      PatternsMore(b.rows, [b.last]);
      PatternsMore(a.rows, [a.last]);
      PatternsOne(a.last);
      assert more[0..] == more;
    } else {
      var rest := more[1..];
      assert more == [LF] + rest && a.last + more == a.last + [LF] + rest;
      ParseRow(a.last, rest);
      var b := Parse(rest);
      assert a.rows + ([a.last] + b.rows) == (a.rows + [a.last]) + b.rows;
      PatternsMore(a.rows + [a.last] + b.rows, [b.last]);
      PatternsMore(a.rows + [a.last], b.rows);
      PatternsMore(b.rows, [b.last]);
    }
  }

  /** One line, perhaps terminated. */
  lemma OneLine(line: Bytes)
    requires Flat(line)
    ensures Parse(line) == Document([], line) && Parse(line + [LF]) == Document([line], [])
  {
    IndexOfNone(line, LF);
    assert line + [LF] == line + [LF] + [];
    ParseRow(line, []);
    assert line[..|line|] == line;
  }

  /** However much of the staged append a crash keeps, nothing else is ignored. */
  lemma PartialInert(original: Bytes, k: nat)
    requires k <= |Stage(original)|
    ensures ActiveLines(original + Stage(original)[..k]) == ActiveLines(original)
  {
    hide Parse, IndexOf, ActiveLines;
    var lead, stage, line := Leading(original), Stage(original), LineOf(HASH);
    if k < |lead| {
      assert stage[..k] == [] && original + [] == original;
    } else {
      var part := stage[..k][|lead|..];
      StagePart(original, k);
      ActiveMore(original, stage[..k]);
      FlatPrefix(line, |part|);
      if part == line + [LF] {
        OneLine(line);
        var nil: Bytes := [];
        PatternsMore([line], [nil]);
        PatternsOne(line);
        PatternsOne([]);
      } else {
        OneLine(part);
        PatternsOne(part);
      }
    }
  }

  lemma StagePart(original: Bytes, k: nat)
    requires |Leading(original)| <= k <= |Stage(original)|
    ensures
      var part, line := Stage(original)[..k][|Leading(original)|..], LineOf(HASH);
      && Leading(original) <= Stage(original)[..k]
      && (part == line + [LF] || (|part| <= |line| && part == line[..|part|]))
  {
    var part, line := Stage(original)[..k][|Leading(original)|..], LineOf(HASH);
    var n := k - |Leading(original)|;
    assert part == (line + [LF])[..n];
    if n <= |line| { assert part == line[..n]; } else { assert part == line + [LF]; }
  }

  lemma FlatPrefix(line: Bytes, n: nat)
    requires Flat(line)
    ensures n <= |line| ==> Flat(line[..n])
  {
  }

  /** The single-byte change adds exactly the one rule. */
  lemma FlipActivates(original: Bytes)
    ensures original + Addition(original) == Flipped(original + Stage(original), |original| + |Leading(original)|)
    ensures ActiveLines(original + Addition(original)) == ActiveLines(original) + [RULE]
  {
    hide Parse, IndexOf, ActiveLines, Patterns;
    FlippedAddition(original);
    RuleAlone();
    ActiveMore(original, Addition(original));
  }

  lemma FlippedAddition(original: Bytes)
    ensures original + Addition(original) == Flipped(original + Stage(original), |original| + |Leading(original)|)
    ensures Leading(original) <= Addition(original) && Addition(original)[|Leading(original)|..] == RULE + [LF]
  {
    hide Leading;
    RuleFlipped(original, Leading(original), RULE);
  }

  lemma RuleFlipped(original: Bytes, lead: Bytes, rule: Bytes)
    requires rule != [] && rule[0] == SLASH
    ensures
      var staged := original + (lead + [HASH] + rule[1..] + [LF]);
      |original| + |lead| < |staged| && original + (lead + rule + [LF]) == staged[|original| + |lead| := SLASH]
    ensures lead <= lead + rule + [LF] && (lead + rule + [LF])[|lead|..] == rule + [LF]
  {
    assert rule == [SLASH] + rule[1..];
    ByteReplaced(original + lead, rule[1..] + [LF], HASH, SLASH);
    assert original + (lead + [HASH] + rule[1..] + [LF]) == original + lead + [HASH] + (rule[1..] + [LF]);
    assert original + (lead + rule + [LF]) == original + lead + [SLASH] + (rule[1..] + [LF]);
    assert lead + rule + [LF] == lead + (rule + [LF]);
  }

  lemma ByteReplaced(before: Bytes, after: Bytes, first: Byte, second: Byte)
    ensures (before + [first] + after)[|before| := second] == before + [second] + after
  {
  }

  lemma RuleAlone()
    ensures Patterns(Lines(Parse(RULE + [LF]))) == [RULE]
  {
    hide Parse, IndexOf;
    OneLine(RULE);
    var nil: Bytes := [];
    PatternsMore([RULE], [nil]);
    PatternsOne(RULE);
    PatternsOne(nil);
    assert Lines(Parse(RULE + [LF])) == [RULE] + [nil];
  }

  function Flipped(data: Bytes, at: nat): Bytes {
    if at < |data| then data[at := SLASH] else data
  }

  lemma {:induction false} PatternsKeep(lines: seq<Bytes>, line: Bytes)
    ensures line in Patterns(lines) <==> line in lines && Pattern(line)
  {
    if lines != [] {
      PatternsKeep(lines[1..], line);
      assert lines == [lines[0]] + lines[1..];
    }
  }

  /** Running again after any partial append keeps the original bytes first and ends
      with the rule active. */
  lemma RerunActivates(original: Bytes, k: nat)
    requires k <= |Stage(original)| && RULE !in ActiveLines(original)
    ensures
      var partial := original + Stage(original)[..k];
      && RULE !in Lines(Parse(partial))
      && original <= partial + Addition(partial)
      && ActiveLines(partial + Addition(partial)) == ActiveLines(original) + [RULE]
  {
    hide IndexOf, Parse;
    var partial := original + Stage(original)[..k];
    PartialInert(original, k);
    FlipActivates(partial);
    PatternsKeep(Lines(Parse(partial)), RULE);
  }

  function WithRule(lines: seq<Bytes>): seq<Bytes> {
    if RULE in lines then lines else lines + [RULE]
  }

  /** The content keeps the base file's bytes and its patterns, with the one rule or without. */
  predicate Harmless(content: Bytes, base: Bytes) {
    && base <= content
    && (ActiveLines(content) == ActiveLines(base) || ActiveLines(content) == WithRule(ActiveLines(base)))
  }

  predicate Inert(contents: set<Bytes>, base: Bytes) {
    forall c | c in contents :: Harmless(c, base)
  }

  /** What a crash may show: the flushed bytes, or any part of an append after them. */
  function CrashContents(flushed: Bytes, content: Bytes): set<Bytes> {
    {flushed} + set k | |flushed| <= k <= |content| :: content[..k]
  }

  /** Flipping the byte before the append is flushed could leave another pattern active. */
  lemma FlipUnflushed()
    ensures !Inert(CrashContents([], Addition([])), [])
  {
    hide Parse, IndexOf;
    var none: Bytes, part: Bytes := [], [SLASH];
    assert Addition([]) == RULE + [LF];
    assert (RULE + [LF])[..1] == part;
    OneLine(none);
    OneLine(part);
    PatternsOne(none);
    PatternsOne(part);
    assert Lines(Parse(part)) == [part] && Lines(Parse(none)) == [none];
    assert ActiveLines(part) == [part] && ActiveLines(none) == [];
    assert part in CrashContents([], Addition([]));
    assert [part][0] == part && [RULE][0] == RULE && |part| != |RULE|;
  }

  /** The rule is there, or there is room to add it. */
  predicate Accepts(data: Bytes) {
    RULE in ActiveLines(data) || |data| + |Addition(data)| <= EXCLUDE_LIMIT
  }

  class Exclude {
    var content: Bytes

    /** What survives a crash for certain. */
    var flushed: Bytes

    /** Everything a crash could have shown so far. */
    ghost var visited: set<Bytes>

    /** How many operations have failed. */
    ghost var faults: nat

    ghost predicate Valid(base: Bytes)
      reads this
    {
      |flushed| <= |content| && Inert(CrashContents(flushed, content), base)
    }

    constructor (initial: Bytes)
      ensures content == flushed == initial && visited == {initial} && Valid(initial)
    {
      content, flushed, visited, faults := initial, initial, {initial}, 0;
      new;
      FlushedContents(initial);
    }

    /** Appends bytes; a short write leaves any prefix of them. */
    method Write(more: Bytes) returns (ok: bool, ghost k: nat)
      requires |flushed| <= |content|
      modifies this`content, this`visited, this`faults
      ensures k <= |more| && content == old(content) + more[..k] && (ok ==> k == |more|)
      ensures visited == old(visited) + CrashContents(flushed, old(content) + more)
      ensures ok <==> faults == old(faults)
    {
      var written: int := *;
      var n := if 0 <= written <= |more| then written else |more|;
      var failed: bool := *;
      visited := visited + CrashContents(flushed, content + more);
      content, k := content + more[..n], n;
      ok := !failed && n == |more|;
      if !ok { faults := faults + 1; }
    }

    /** Overwrites one byte, or does not. */
    method WriteAt(at: nat, b: Byte) returns (ok: bool)
      requires at < |content|
      modifies this`content, this`visited, this`faults
      ensures content == old(content) || content == old(content)[at := b]
      ensures visited == old(visited) + CrashContents(flushed, content)
      ensures ok ==> content == old(content)[at := b]
      ensures ok <==> faults == old(faults)
    {
      var failed: bool := *;
      if !failed { content := content[at := b]; }
      visited := visited + CrashContents(flushed, content);
      var lost: bool := *;
      ok := !failed && !lost;
      if !ok { faults := faults + 1; }
    }

    /** Makes what a reader sees survive a crash, or fails with or without having done so. */
    method Sync() returns (ok: bool)
      modifies this`flushed, this`faults
      ensures flushed == old(flushed) || flushed == content
      ensures ok ==> flushed == content
      ensures ok <==> faults == old(faults)
    {
      var done: bool := *;
      if done { flushed := content; }
      ok := *;
      ok := ok && done;
      if !ok { faults := faults + 1; }
    }

    method Read() returns (data: Option<Bytes>)
      modifies this`faults
      ensures data.Some? ==> data.value == content
      ensures data.Some? <==> faults == old(faults)
    {
      var failed: bool := *;
      if failed { faults := faults + 1; }
      data := if failed then None else Some(content);
    }

    /** Makes the rule active, or leaves what was active alone. */
    method EnsureIgnored(ghost base: Bytes) returns (ok: bool)
      requires Valid(base)
      modifies this
      ensures Valid(base) && Inert(visited - old(visited), base) && old(content) <= content
      ensures ok ==> flushed == content && RULE in ActiveLines(content)
      ensures ok ==> ActiveLines(content) == WithRule(ActiveLines(base))
      ensures ok <==> faults == old(faults) && Accepts(old(content))
    {
      hide IndexOf, Parse, Patterns, Stage, Addition, Leading, Harmless, CrashContents;
      ghost var earlier, first := visited, content;
      var lines := Lines(Parse(content));
      PatternsKeep(lines, RULE);
      var present := false;
      for i := 0 to |lines|
        invariant present <==> RULE in lines[..i]
      {
        if lines[i] == RULE { present := true; }
      }
      assert lines[..|lines|] == lines;
      ok := true;
      if !present { ok := Activate(base); }
      if !ok { return; }
      // A visible rule may not be durable after an earlier failure: flush it again.
      var expected := content;
      ghost var before := flushed;
      ok := Sync();
      SyncedValid(before, content, base);
      if !ok { return; }
      var readback := Read();
      if readback != Some(expected) { return false; }
      ok := Sync();
      RuleShown(flushed, content, base);
    }

    /** Appends an inert line, flushes it, reads it back, and flips its first byte. */
    method Activate(ghost base: Bytes) returns (ok: bool)
      requires Valid(base) && RULE !in ActiveLines(content)
      modifies this
      ensures Valid(base) && Inert(visited - old(visited), base) && old(content) <= content
      ensures ok ==> RULE in ActiveLines(content)
      ensures ok <==> faults == old(faults) && |old(content)| + |Addition(old(content))| <= EXCLUDE_LIMIT
    {
      hide ActiveLines, Stage, Addition, Leading, Harmless, Flipped, CrashContents;
      var original := content;
      if |original| + |Addition(original)| > EXCLUDE_LIMIT { return false; }
      var stage, leading := Stage(original), |Leading(original)|;
      StagedInert(flushed, original, base);
      FlipPlace(original);
      ghost var k, before;
      ok, k := Write(stage);
      StagedPrefix(flushed, original, k, base);
      assert stage[..|stage|] == stage;
      if !ok { return; }
      before := flushed;
      ok := Sync();
      SyncedValid(before, content, base);
      if !ok { return; }
      var readback := Read();
      if readback != Some(original + stage) { return false; }
      FlippedInert(original, base, flushed);
      ok := WriteAt(|original| + leading, SLASH);
    }
  }

  lemma FlushedContents(content: Bytes)
    ensures CrashContents(content, content) == {content}
  {
    assert content == content[..|content|];
    forall c | c in CrashContents(content, content) ensures c == content { }
  }

  lemma SyncedValid(flushed: Bytes, content: Bytes, base: Bytes)
    requires |flushed| <= |content| && Inert(CrashContents(flushed, content), base)
    ensures Inert(CrashContents(content, content), base) && Harmless(content, base)
  {
    hide Harmless;
    FlushedContents(content);
    assert content == content[..|content|];
    assert content in CrashContents(flushed, content);
  }

  lemma RuleShown(flushed: Bytes, content: Bytes, base: Bytes)
    requires |flushed| <= |content| && Inert(CrashContents(flushed, content), base)
    ensures RULE in ActiveLines(content) ==> ActiveLines(content) == WithRule(ActiveLines(base))
  {
    hide ActiveLines;
    assert content == content[..|content|];
    assert Harmless(content, base);
  }

  /** Whatever part of the staged append survives is harmless. */
  lemma StagedInert(flushed: Bytes, original: Bytes, base: Bytes)
    requires |flushed| <= |original| && Inert(CrashContents(flushed, original), base)
    requires RULE !in ActiveLines(original)
    ensures Inert(CrashContents(flushed, original + Stage(original)), base)
    ensures ActiveLines(original) == ActiveLines(base) && base <= original
  {
    hide ActiveLines, Stage;
    var staged := original + Stage(original);
    assert original == original[..|original|];
    assert Harmless(original, base);
    forall k | |flushed| <= k <= |staged| ensures Harmless(staged[..k], base) {
      if k <= |original| {
        assert staged[..k] == original[..k];
      } else {
        assert staged[..k] == original + Stage(original)[..k - |original|];
        PartialInert(original, k - |original|);
      }
    }
  }

  lemma StagedPrefix(flushed: Bytes, original: Bytes, k: nat, base: Bytes)
    requires |flushed| <= |original| && Inert(CrashContents(flushed, original + Stage(original)), base)
    requires k <= |Stage(original)|
    ensures Inert(CrashContents(flushed, original + Stage(original)[..k]), base)
  {
    hide Harmless, Stage;
    var staged, part := original + Stage(original), original + Stage(original)[..k];
    forall n | |flushed| <= n <= |part| ensures part[..n] == staged[..n] {
    }
  }

  /** With the append flushed, the flip shows the old content or the new one. */
  lemma FlippedInert(original: Bytes, base: Bytes, flushed: Bytes)
    requires flushed == original + Stage(original) && Harmless(flushed, base)
    requires RULE !in ActiveLines(original) && ActiveLines(original) == ActiveLines(base) && base <= original
    ensures Inert(CrashContents(flushed, original + Addition(original)), base)
    ensures RULE in ActiveLines(original + Addition(original))
  {
    hide ActiveLines, Stage, Addition;
    FlipActivates(original);
    StageLength(original);
    var flipped := original + Addition(original);
    assert |flipped| == |flushed|;
    assert flipped == flipped[..|flipped|];
    forall c | c in CrashContents(flushed, flipped) ensures c == flushed || c == flipped { }
  }

  lemma StageLength(original: Bytes)
    ensures |Stage(original)| == |Addition(original)|
  {
  }

  lemma FlipPlace(original: Bytes)
    ensures |Leading(original)| < |Stage(original)|
    ensures (original + Stage(original))[|original| + |Leading(original)| := SLASH] == original + Addition(original)
  {
    FlipActivates(original);
  }
}
