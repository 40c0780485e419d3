/** Bounded retention of an append-only row log, found by scanning backward in
    fixed-size chunks. */
module EventLog {
  import opened Basics

  const NEWLINE: Byte := 10

  function Newlines(data: Bytes): nat {
    if data == [] then 0 else (if data[0] == NEWLINE then 1 else 0) + Newlines(data[1..])
  }

  /** A partial final row counts as a row. */
  function Rows(data: Bytes): nat {
    Newlines(data) + (if data != [] && data[|data| - 1] != NEWLINE then 1 else 0)
  }

  function Keep(maximum: nat): nat {
    if maximum / 2 > 1 then maximum / 2 else 1
  }

  /** As many rows as half the maximum, and one if that is none. */
  predicate Half(rows: nat, maximum: nat) {
    if maximum <= 1 then rows == 1 else 2 * rows <= maximum < 2 * rows + 2
  }

  predicate RowStart(data: Bytes, start: nat) {
    start == 0 || (start <= |data| && data[start - 1] == NEWLINE)
  }

  lemma {:induction false} NewlinesMore(a: Bytes, b: Bytes)
    ensures Newlines(a + b) == Newlines(a) + Newlines(b)
  {
    if a == [] {
      assert a + b == b;
    } else {
      assert (a + b)[1..] == a[1..] + b;
      NewlinesMore(a[1..], b);
    }
  }

  lemma NewlinesFrom(data: Bytes, i: nat)
    requires i < |data|
    ensures Newlines(data[i..]) == (if data[i] == NEWLINE then 1 else 0) + Newlines(data[i + 1..])
  {
    assert data[i..][1..] == data[i + 1..];
  }

  /** The start of the last `keep` rows is determined by the log. */
  lemma StartUnique(data: Bytes, a: nat, b: nat)
    requires 0 < a <= |data| && 0 < b <= |data| && data[a - 1] == data[b - 1] == NEWLINE
    requires Rows(data[a..]) == Rows(data[b..])
    ensures a == b
  {
    if a < b { StartShrinks(data, a, b); }
    if b < a { StartShrinks(data, b, a); }
  }

  lemma StartShrinks(data: Bytes, a: nat, b: nat)
    requires 0 < a < b <= |data| && data[b - 1] == NEWLINE
    ensures Rows(data[b..]) < Rows(data[a..])
  {
    assert data[a..] == data[a..b - 1] + [NEWLINE] + data[b..];
    NewlinesMore(data[a..b - 1] + [NEWLINE], data[b..]);
    NewlinesMore(data[a..b - 1], [NEWLINE]);
  }

  /** What the backward scan knows once it has seen `data[at..]`. */
  ghost predicate Scanned(data: Bytes, at: nat, keep: nat, lines: nat, boundaries: nat, start: nat) {
    && at <= |data|
    && lines == Newlines(data[at..])
    && boundaries == lines + (if data != [] && data[|data| - 1] != NEWLINE then 1 else 0)
    && (boundaries > keep ==> at < start <= |data| && data[start - 1] == NEWLINE && Rows(data[start..]) == keep)
    && (boundaries <= keep ==> start == 0)
  }

  lemma ScannedOn(data: Bytes, at: nat, keep: nat, lines: nat, boundaries: nat, start: nat)
    requires 0 < at && Scanned(data, at, keep, lines, boundaries, start) && keep > 0
    ensures data[at - 1] != NEWLINE ==> Scanned(data, at - 1, keep, lines, boundaries, start)
    ensures data[at - 1] == NEWLINE ==>
      Scanned(data, at - 1, keep, lines + 1, boundaries + 1, if boundaries + 1 == keep + 1 then at else start)
  {
    NewlinesFrom(data, at - 1);
    if at < |data| { assert data[at..][|data| - at - 1] == data[|data| - 1]; }
  }

  lemma ScannedStart(data: Bytes, keep: nat)
    requires keep > 0
    ensures Scanned(data, |data|, keep, 0, if data != [] && data[|data| - 1] != NEWLINE then 1 else 0, 0)
  {
    assert data[|data|..] == [];
  }

  /** More than the maximum has been seen: the start of the kept rows is known. */
  lemma ScannedEnough(data: Bytes, at: nat, maximum: nat, lines: nat, boundaries: nat, start: nat)
    requires maximum > 0 && Scanned(data, at, Keep(maximum), lines, boundaries, start)
    ensures lines > maximum ==>
      Newlines(data) > maximum && 0 < start <= |data| && RowStart(data, start) && Rows(data[start..]) == Keep(maximum)
    ensures at == 0 ==> lines == Newlines(data)
  {
    assert data == data[..at] + data[at..];
    NewlinesMore(data[..at], data[at..]);
    assert data[0..] == data;
  }

  /** Scans one chunk backward, stopping once the maximum is exceeded. */
  method ScanChunk(data: Bytes, offset: nat, chunk: Bytes, maximum: nat, lines0: nat, boundaries0: nat, start0: nat)
    returns (lines: nat, boundaries: nat, start: nat, ghost at: nat)
    requires maximum > 0 && lines0 <= maximum && offset + |chunk| <= |data| && chunk == data[offset..offset + |chunk|]
    requires Scanned(data, offset + |chunk|, Keep(maximum), lines0, boundaries0, start0)
    ensures Scanned(data, at, Keep(maximum), lines, boundaries, start)
    ensures lines <= maximum ==> at == offset
  {
    hide Scanned, Keep;
    KeepsFewer(maximum);
    lines, boundaries, start, at := lines0, boundaries0, start0, offset + |chunk|;
    var i := |chunk|;
    while i > 0
      invariant 0 <= i <= |chunk| && at == offset + i && lines <= maximum
      invariant Scanned(data, at, Keep(maximum), lines, boundaries, start)
    {
      i, at := i - 1, at - 1;
      ScannedOn(data, at + 1, Keep(maximum), lines, boundaries, start);
      if chunk[i] == NEWLINE {
        lines, boundaries := lines + 1, boundaries + 1;
        if boundaries == Keep(maximum) + 1 { start := offset + i + 1; }
        if lines > maximum { return; }
      }
    }
  }

  /** Trims exactly when terminated rows exceed the maximum, and then returns where
      the last rows to keep begin, whatever the chunk size. */
  method RetainedStart(data: Bytes, maximum: nat, chunkSize: nat) returns (start: nat, trim: bool)
    requires maximum > 0 && chunkSize > 0
    ensures trim <==> Newlines(data) > maximum
    ensures trim ==> 0 < start <= |data| && RowStart(data, start) && Rows(data[start..]) == Keep(maximum)
    ensures trim ==> Half(Rows(data[start..]), maximum)
  {
    hide Scanned, Newlines, Rows, Keep;
    var lines: nat, boundaries: nat, end: nat := 0, 0, |data|;
    start := 0;
    KeepsFewer(maximum);
    ScannedStart(data, Keep(maximum));
    if |data| > 0 && data[|data| - 1] != NEWLINE { boundaries := 1; }
    while end > 0
      invariant 0 <= end <= |data| && lines <= maximum
      invariant Scanned(data, end, Keep(maximum), lines, boundaries, start)
    {
      var offset := if end > chunkSize then end - chunkSize else 0;
      ghost var at: nat;
      lines, boundaries, start, at := ScanChunk(data, offset, data[offset..end], maximum, lines, boundaries, start);
      ScannedEnough(data, at, maximum, lines, boundaries, start);
      if lines > maximum { return start, true; }
      end := offset;
    }
    ScannedEnough(data, 0, maximum, lines, boundaries, start);
    return 0, false;
  }

  // ----- a log under one maximum -----

  /** `suffix` is what is left of `all` after whole rows were dropped from its front. */
  ghost predicate Aligned(all: Bytes, suffix: Bytes) {
    |suffix| <= |all| && all[|all| - |suffix|..] == suffix && RowStart(all, |all| - |suffix|)
  }

  lemma AlignedMore(all: Bytes, suffix: Bytes, entry: Bytes)
    requires Aligned(all, suffix)
    ensures Aligned(all + entry, suffix + entry)
  {
  }

  lemma AlignedTrimmed(all: Bytes, suffix: Bytes, start: nat)
    requires Aligned(all, suffix) && start <= |suffix| && RowStart(suffix, start)
    ensures Aligned(all, suffix[start..])
  {
    assert suffix[start..] == all[|all| - |suffix| + start..];
    if start > 0 { assert suffix[start - 1] == all[|all| - |suffix| + start - 1]; }
  }

  class Log {
    var content: Bytes

    /** Everything there ever was in the log. */
    ghost var all: Bytes

    /** How many operations have failed. */
    ghost var faults: nat

    ghost predicate Valid()
      reads this
    {
      Aligned(all, content)
    }

    constructor (initial: Bytes)
      ensures Valid() && content == initial && all == initial
    {
      content, all, faults := initial, initial, 0;
    }

    /** Appends one entry and retains the newest rows. A failed append leaves the bytes it
        wrote, perhaps part of a row, and a failed retention leaves the appended log. */
    method Append(entry: Bytes, maximum: nat, chunkSize: nat) returns (ok: bool, ghost written: nat)
      requires Valid() && maximum > 0 && chunkSize > 0
      requires entry != [] && entry[|entry| - 1] == NEWLINE
      modifies this
      ensures Valid() && written <= |entry| && all == old(all) + entry[..written]
      ensures Aligned(old(content) + entry[..written], content)
      ensures ok ==> written == |entry|
      ensures ok ==> var rows := Newlines(old(content) + entry);
        if rows > maximum then Half(Newlines(content), maximum) else Newlines(content) == rows
      ensures !ok ==> content == old(content) + entry[..written]
      ensures ok <==> faults == old(faults)
    {
      hide Newlines, Keep, Rows, Aligned;
      var length: int := *;
      var n := if 0 <= length <= |entry| then length else |entry|;
      written := n;
      AlignedMore(all, content, entry[..n]);
      AlignedSame(content + entry[..n]);
      content, all := content + entry[..n], all + entry[..n];
      var unclosed: bool := *;
      if n < |entry| || unclosed {
        faults := faults + 1;
        return false, n;
      }
      assert entry[..n] == entry;
      ok := Retain(maximum, chunkSize);
    }

    /** Drops the oldest rows of a log that holds more than the maximum. */
    method Retain(maximum: nat, chunkSize: nat) returns (ok: bool)
      requires Valid() && maximum > 0 && chunkSize > 0
      requires content != [] && content[|content| - 1] == NEWLINE
      modifies this`content, this`faults
      ensures Valid() && Aligned(old(content), content)
      ensures ok ==> var rows := Newlines(old(content));
        if rows > maximum then Half(Newlines(content), maximum) else Newlines(content) == rows
      ensures !ok ==> content == old(content)
      ensures ok <==> faults == old(faults)
    {
      hide Newlines, Keep, Rows, Aligned;
      AlignedSame(content);
      var start, trim := RetainedStart(content, maximum, chunkSize);
      ok := true;
      if trim {
        var failed: bool := *;
        if failed {
          faults := faults + 1;
          return false;
        }
        AlignedTrimmed(all, content, start);
        AlignedTrimmed(content, content, start);
        LastTerminated(content, start);
        content := content[start..];
      }
    }
  }

  lemma AlignedSame(data: Bytes)
    ensures Aligned(data, data)
  {
  }

  lemma KeepsFewer(maximum: nat)
    requires maximum > 0
    ensures 0 < Keep(maximum) <= maximum && Half(Keep(maximum), maximum)
  {
  }

  lemma LastTerminated(data: Bytes, start: nat)
    requires start <= |data| && data != [] && data[|data| - 1] == NEWLINE
    ensures Rows(data[start..]) == Newlines(data[start..])
  {
    if start < |data| { assert data[start..][|data| - start - 1] == data[|data| - 1]; }
  }

  function Joined(entries: seq<Bytes>): Bytes {
    if entries == [] then [] else Joined(entries[..|entries| - 1]) + entries[|entries| - 1]
  }

  /** After any appends under one maximum the log is bounded, whatever it held before, and is
      a whole-row suffix of everything appended. */
  method AppendAll(log: Log, entries: seq<Bytes>, maximum: nat, chunkSize: nat) returns (ok: bool)
    requires log.Valid() && maximum > 0 && chunkSize > 0
    requires forall e | e in entries :: e != [] && e[|e| - 1] == NEWLINE
    modifies log
    ensures log.Valid()
    ensures ok ==> log.all == old(log.all) + Joined(entries)
    ensures ok && (entries != [] || Newlines(old(log.content)) <= maximum) ==> Newlines(log.content) <= maximum
    ensures ok ==> Aligned(old(log.all) + Joined(entries), log.content)
  {
    hide Newlines, Aligned;
    ok := true;
    KeepsFewer(maximum);
    assert old(log.all) + [] == old(log.all);
    for i := 0 to |entries|
      invariant log.Valid() && ok && log.all == old(log.all) + Joined(entries[..i])
      invariant i > 0 || Newlines(old(log.content)) <= maximum ==> Newlines(log.content) <= maximum
    {
      assert entries[..i + 1][..i] == entries[..i];
      ghost var written;
      ok, written := log.Append(entries[i], maximum, chunkSize);
      if !ok { return; }
      assert entries[i][..written] == entries[i];
    }
    assert entries[..|entries|] == entries;
  }
}
