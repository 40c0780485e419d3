/** Each edit of a plan is the rewriting of its document. */
module EditPlanSteps {
  import opened Basics
  import opened ConfigText
  import opened ConfigLaws
  import opened EditPlanText

  predicate TailMatches(p: Plan, key: Bytes) {
    p.tail.Some? && p.tail.value.key == key
  }

  /** The rows of the key, and the bytes they hold, from the index alone. */
  function Matches(p: Plan, key: Bytes): nat
    requires key in p.entries
  {
    p.entries[key].count + (if TailMatches(p, key) then 1 else 0) + (if key in p.byKey then 1 else 0)
  }

  function OldSize(p: Plan, key: Bytes): nat
    requires key in p.entries
    requires key in p.byKey ==> p.byKey[key] < |p.appended|
  {
    p.entries[key].contentSize + (if TailMatches(p, key) then |p.tail.value.line| else 0)
      + (if key in p.byKey then |p.appended[p.byKey[key]].line| else 0)
  }

  /** The value a reader of the index sees: body rows, then the tail, then appended. */
  function Indexing(p: Plan, key: Bytes): Option<Bytes>
    requires key in p.entries
    requires key in p.byKey ==> p.byKey[key] < |p.appended|
  {
    if p.entries[key].count > 0 then Some(p.entries[key].first)
    else if TailMatches(p, key) then Some(p.tail.value.value)
    else if key in p.byKey then Some(p.appended[p.byKey[key]].value)
    else None
  }

  // ----- the index agrees with the document -----

  lemma TailLines(p: Plan, key: Bytes)
    requires PlanKept(p) && key in p.entries
    ensures
      var lines := TailRows(p.tail) + [TailLast(p.tail)];
      && Count(lines, key) == (if TailMatches(p, key) then 1 else 0)
      && Held(lines, key) == (if TailMatches(p, key) then |p.tail.value.line| else 0)
      && FirstLine(lines, key) == if TailMatches(p, key) then Some(p.tail.value.line) else None
    ensures TailMatches(p, key) ==>
      HasKey(p.tail.value.line, key) && p.tail.value.value == Text(Value(p.tail.value.line, key))
  {
    hide IndexOf, Text, HasKey, CurrentRows;
    NoKey(key);
    if p.tail.Some? {
      var line := p.tail.value.line;
      TailMatched(p, key);
      OneRow(line, key);
      OneRow([], key);
      if p.tail.value.terminated {
        assert TailRows(p.tail) + [TailLast(p.tail)] == [line, []];
      } else {
        assert TailRows(p.tail) + [TailLast(p.tail)] == [line];
      }
    } else {
      OneRow([], key);
      assert TailRows(p.tail) + [TailLast(p.tail)] == [[]];
    }
  }

  lemma NoKey(key: Bytes)
    ensures !HasKey([], key)
  {
  }

  lemma TailMatched(p: Plan, key: Bytes)
    requires PlanKept(p) && key in p.entries && p.tail.Some?
    ensures TailMatches(p, key) <==> HasKey(p.tail.value.line, key)
    ensures TailMatches(p, key) ==> p.tail.value.value == Text(Value(p.tail.value.line, key))
  {
    hide IndexOf, Text, CurrentRows;
    var line := p.tail.value.line;
    KeyOfLine(line, key);
    assert KeyOf(line) == Some(key) ==> line[..|key|] == key;
  }

  lemma OneRow(line: Bytes, key: Bytes)
    ensures
      var nil: Bytes := [];
      && Count([line], key) == (if HasKey(line, key) then 1 else 0)
      && Held([line], key) == (if HasKey(line, key) then |line| else 0)
      && FirstLine([line], key) == (if HasKey(line, key) then Some(line) else None)
      && Count([line, nil], key) == Count([line], key) + Count([nil], key)
      && Held([line, nil], key) == Held([line], key) + Held([nil], key)
      && FirstLine([line, nil], key) == if HasKey(line, key) then Some(line) else FirstLine([nil], key)
  {
    hide HasKey;
    var nil: Bytes := [];
    assert [line][1..] == [] && [line, nil][1..] == [nil] && [nil][1..] == [];
  }

  lemma AppendedMatch(p: Plan, key: Bytes)
    requires PlanKept(p) && key in p.entries
    ensures key in p.byKey ==> p.byKey[key] < |p.appended|
    ensures
      var lines := AppendedLines(p.appended);
      if key in p.byKey then
        var row := p.appended[p.byKey[key]];
        && HasKey(row.line, key) && row.value == Text(Value(row.line, key))
        && Count(lines, key) == 1 && Held(lines, key) == |row.line| && FirstLine(lines, key) == Some(row.line)
      else Count(lines, key) == 0 && Held(lines, key) == 0 && FirstLine(lines, key) == None
  {
    forall i | 0 <= i < |p.appended| ensures COLON !in p.appended[i].key {
      assert GoodKey(p.appended[i].key);
    }
    AppendedRowFirst(p.appended, key, 0);
    assert AppendedLines(p.appended)[0..] == AppendedLines(p.appended);
    CountFirst(AppendedLines(p.appended), key);
  }

  /** Counts and sizes do not depend on where the unterminated tail stands. */
  lemma DocumentCounts(p: Plan, key: Bytes)
    ensures
      var doc := DocumentOf(p);
      var tail, appended := TailRows(p.tail) + [TailLast(p.tail)], AppendedLines(p.appended);
      && Count(Lines(doc), key) == Count(BodyRows(p), key) + Count(tail, key) + Count(appended, key)
      && Held(Lines(doc), key) == Held(BodyRows(p), key) + Held(tail, key) + Held(appended, key)
  {
    hide Parse, Count, Held;
    var body, rows, last, appended := BodyRows(p), TailRows(p.tail), [TailLast(p.tail)], AppendedLines(p.appended);
    CountMore(body + rows + appended, last, key);
    CountMore(body + rows, appended, key);
    CountMore(body, rows, key);
    CountMore(rows, last, key);
  }

  lemma IndexedCounts(p: Plan, key: Bytes)
    requires PlanKept(p) && key in p.entries
    ensures key in p.byKey ==> p.byKey[key] < |p.appended|
    ensures Matches(p, key) == Count(Lines(DocumentOf(p)), key)
    ensures OldSize(p, key) == Held(Lines(DocumentOf(p)), key)
    ensures Matches(p, key) > 0 <==> Mentions(DocumentOf(p), key)
  {
    hide Parse, Count, Held, FirstLine, BodyRows, DocumentOf, HasKey, Text, Value, Flat, Mentions, KeyOf;
    TailLines(p, key);
    AppendedMatch(p, key);
    DocumentCounts(p, key);
    CountFirst(Lines(DocumentOf(p)), key);
    EditedLines(DocumentOf(p), key, []);
    assert Indexed(p.entries[key], key, BodyRows(p));
  }

  /** What the index reports is what a reader of the bytes would see. */
  lemma IndexedFirst(p: Plan, key: Bytes)
    requires PlanKept(p) && key in p.entries
    ensures key in p.byKey ==> p.byKey[key] < |p.appended|
    ensures
      var line := FirstLine(Lines(DocumentOf(p)), key);
      Indexing(p, key) == if line.Some? then Some(Text(Value(line.value, key))) else None
  {
    var body, rows, last, appended := BodyRows(p), TailRows(p.tail), [TailLast(p.tail)], AppendedLines(p.appended);
    TailLines(p, key);
    AppendedMatch(p, key);
    CountFirst(body, key);
    FirstMore(rows, last, key);
    FirstMore(body + rows + appended, last, key);
    FirstMore(body + rows, appended, key);
    FirstMore(body, rows, key);
    hide Parse, Count, Held, BodyRows, Text;
    assert Indexed(p.entries[key], key, BodyRows(p));
    if !TailMatches(p, key) {
      assert FirstLine(rows, key) == None && FirstLine(last, key) == None;
    } else if !p.tail.value.terminated {
      assert p.appended == [] && appended == [];
    }
  }

  /** The size after an edit, from the index alone. */
  lemma EditedSize(doc: Document, key: Bytes, line: Bytes)
    requires HasKey(line, key)
    ensures |Unparse(Edited(doc, key, line))| ==
      if Mentions(doc, key) then |Unparse(doc)| - Held(Lines(doc), key) + Count(Lines(doc), key) * |line|
      else |Unparse(doc)| + |line| + 1
  {
    DocumentTotal(doc);
    DocumentTotal(Edited(doc, key, line));
    EditedLines(doc, key, line);
    ReplacedTotal(Lines(doc), key, line);
    if !Mentions(doc, key) {
      var merged := doc.last + line;
      CountMore(doc.rows, [doc.last], key);
      CountMore(doc.rows, [merged, []], key);
      var nil: Bytes := [];
      assert [merged, nil][1..] == [nil] && [nil][1..] == [] && [doc.last][1..] == [];
    }
  }

  lemma DocumentTotal(doc: Document)
    ensures |Unparse(doc)| == Total(Lines(doc)) + |doc.rows|
  {
    JoinTotal(doc.rows);
    CountMore(doc.rows, [doc.last], []);
    assert [doc.last][1..] == [];
  }

  // ----- the three edits -----

  function ReplacedEntry(entry: Entry, key: Bytes, line: Bytes): Entry
    requires HasKey(line, key)
  {
    Entry(entry.count, entry.count * |line|, Text(Value(line, key)), line, true)
  }

  function ReplacingEntries(p: Plan, key: Bytes, line: Bytes): map<Bytes, Entry>
    requires key in p.entries && HasKey(line, key)
  {
    if p.entries[key].count > 0 then p.entries[key := ReplacedEntry(p.entries[key], key, line)] else p.entries
  }

  function Replacing(p: Plan, key: Bytes, line: Bytes): Plan
    requires key in p.entries && HasKey(line, key)
    requires key in p.byKey ==> p.byKey[key] < |p.appended|
  {
    p.(entries := ReplacingEntries(p, key, line),
       tail := if TailMatches(p, key) then Some(RowOf(p.entries, line, p.tail.value.terminated)) else p.tail,
       appended := if key in p.byKey then p.appended[p.byKey[key] := RowOf(p.entries, line, true)] else p.appended,
       size := p.size - OldSize(p, key) + Matches(p, key) * |line|)
  }

  function Merging(p: Plan, line: Bytes): Plan
    requires p.tail.Some?
  {
    p.(tail := Some(RowOf(p.entries, p.tail.value.line + line, true)), size := p.size + |line| + 1)
  }

  function Appending(p: Plan, key: Bytes, line: Bytes): Plan {
    p.(appended := p.appended + [RowOf(p.entries, line, true)], byKey := p.byKey[key := |p.appended|],
       size := p.size + |line| + 1)
  }

  lemma {:induction false} BodyReplaced(p: Plan, key: Bytes, line: Bytes)
    requires EntriesKept(p) && key in p.entries && HasKey(line, key)
    ensures BodyRows(p.(entries := ReplacingEntries(p, key, line))) == ReplacedRows(BodyRows(p), key, line)
  {
    hide IndexOf, Parse, Text;
    var rows, entries' := Parse(p.body).rows, ReplacingEntries(p, key, line);
    CountFirst(BodyRows(p), key);
    assert Indexed(p.entries[key], key, BodyRows(p)) && GoodKey(key);
    forall i | 0 <= i < |rows|
      ensures CurrentRow(entries', rows[i]) == Replaced(CurrentRow(p.entries, rows[i]), key, line)
    {
      var row := rows[i];
      KeyOfLine(row, key);
      var k := KeyOf(row);
      if k.Some? && k.value in p.entries {
        assert Indexed(p.entries[k.value], k.value, BodyRows(p)) && GoodKey(k.value);
        KeyOfLine(row, k.value);
        if p.entries[k.value].replaced {
          KeyOfLine(p.entries[k.value].replacement, k.value);
          KeyOfLine(p.entries[k.value].replacement, key);
        }
      }
      assert BodyRows(p)[i] == CurrentRow(p.entries, row);
      assert p.entries[key].count == 0 ==> !HasKey(BodyRows(p)[i], key);
    }
  }

  /** Rows that name the key are rewritten wherever they stand. */
  lemma ReplacingDocument(p: Plan, key: Bytes, line: Bytes)
    requires PlanKept(p) && key in p.entries && HasKey(line, key) && Matches(p, key) > 0
    requires key in p.byKey ==> p.byKey[key] < |p.appended|
    ensures DocumentOf(Replacing(p, key, line)) == Edited(DocumentOf(p), key, line)
  {
    var p' := Replacing(p, key, line);
    IndexedCounts(p, key);
    TailLines(p, key);
    BodyReplaced(p, key, line);
    assert BodyRows(p') == BodyRows(p.(entries := ReplacingEntries(p, key, line)));
    AppendedReplaced(p, key, line);
    hide BodyRows, Parse, IndexOf, Count, Held, Mentions, Matches;
    var body, tail, appended := BodyRows(p), TailRows(p.tail), AppendedLines(p.appended);
    ReplacedMore(body + tail, appended, key, line);
    ReplacedMore(body, tail, key, line);
    TailReplaced(p, key, line);
  }

  lemma ReplacedMore(a: seq<Bytes>, b: seq<Bytes>, key: Bytes, line: Bytes)
    ensures ReplacedRows(a + b, key, line) == ReplacedRows(a, key, line) + ReplacedRows(b, key, line)
  {
  }

  lemma TailReplaced(p: Plan, key: Bytes, line: Bytes)
    requires PlanKept(p) && key in p.entries && HasKey(line, key)
    requires key in p.byKey ==> p.byKey[key] < |p.appended|
    ensures
      var p' := Replacing(p, key, line);
      && TailRows(p'.tail) == ReplacedRows(TailRows(p.tail), key, line)
      && TailLast(p'.tail) == Replaced(TailLast(p.tail), key, line)
  {
    hide IndexOf, Parse, Text, Matches;
    if p.tail.Some? { KeyOfLine(p.tail.value.line, key); }
    assert GoodKey(key);
  }

  lemma AppendedReplaced(p: Plan, key: Bytes, line: Bytes)
    requires PlanKept(p) && key in p.entries && HasKey(line, key)
    requires key in p.byKey ==> p.byKey[key] < |p.appended|
    ensures AppendedLines(Replacing(p, key, line).appended) == ReplacedRows(AppendedLines(p.appended), key, line)
  {
    hide IndexOf, Parse, Text, Matches, OldSize;
    var appended' := Replacing(p, key, line).appended;
    forall i | 0 <= i < |p.appended|
      ensures appended'[i].line == Replaced(p.appended[i].line, key, line)
    {
      var row := p.appended[i];
      assert GoodKey(row.key) && GoodKey(key);
      KeyOfLine(row.line, key);
      KeyOfLine(row.line, row.key);
    }
  }

  lemma ReplacingKept(p: Plan, key: Bytes, line: Bytes)
    requires PlanKept(p) && key in p.entries && HasKey(line, key) && Flat(line) && Matches(p, key) > 0
    requires key in p.byKey ==> p.byKey[key] < |p.appended|
    requires p.size - OldSize(p, key) + Matches(p, key) * |line| <= WRITE_LIMIT
    ensures PlanKept(Replacing(p, key, line))
    ensures DocumentOf(Replacing(p, key, line)) == Edited(DocumentOf(p), key, line)
  {
    hide PlanKept, EntriesKept, TailKept, AppendedKept, DocumentOf, Unparse, Parse, Edited, Matches, OldSize, Mentions;
    var p' := Replacing(p, key, line);
    ReplacingDocument(p, key, line);
    IndexedCounts(p, key);
    EditedSize(DocumentOf(p), key, line);
    PlanParts(p, key);
    ReplacingEntriesKept(p, key, line);
    ReplacingRowsKept(p, key, line);
    PlanOf(p');
  }

  lemma ReplacingEntriesKept(p: Plan, key: Bytes, line: Bytes)
    requires PlanKept(p) && key in p.entries && HasKey(line, key) && Flat(line)
    requires key in p.byKey ==> p.byKey[key] < |p.appended|
    ensures EntriesKept(Replacing(p, key, line))
  {
    var p' := Replacing(p, key, line);
    var rows := BodyRows(p);
    BodyReplaced(p, key, line);
    assert BodyRows(p') == ReplacedRows(rows, key, line);
    assert EntriesKept(p);
    hide BodyRows, Parse, IndexOf, Matches, OldSize, Text, PlanKept;
    assert GoodKey(key) && Indexed(p.entries[key], key, rows);
    forall k | k in p'.entries ensures GoodKey(k) && Indexed(p'.entries[k], k, ReplacedRows(rows, key, line)) {
      assert GoodKey(k) && Indexed(p.entries[k], k, rows);
      if k == key { OwnEntryKept(p.entries[key], rows, key, line); }
      else { OtherEntryKept(p.entries[k], rows, key, line, k); }
    }
  }

  lemma OwnEntryKept(entry: Entry, rows: seq<Bytes>, key: Bytes, line: Bytes)
    requires Indexed(entry, key, rows) && HasKey(line, key) && Flat(line)
    ensures Indexed(
      if entry.count > 0 then ReplacedEntry(entry, key, line) else entry, key, ReplacedRows(rows, key, line))
  {
    hide Text;
    CountFirst(rows, key);
    ReplacedTotal(rows, key, line);
    FirstReplaced(rows, key, line);
  }

  lemma OtherEntryKept(entry: Entry, rows: seq<Bytes>, key: Bytes, line: Bytes, other: Bytes)
    requires Indexed(entry, other, rows) && HasKey(line, key) && GoodKey(key) && GoodKey(other) && other != key
    ensures Indexed(entry, other, ReplacedRows(rows, key, line))
  {
    hide Text;
    ReplacedOther(rows, key, line, other);
  }

  lemma ReplacingRowsKept(p: Plan, key: Bytes, line: Bytes)
    requires TailKept(p) && AppendedKept(p) && GoodKey(key) && key in p.entries && HasKey(line, key) && Flat(line)
    requires key in p.byKey ==> p.byKey[key] < |p.appended|
    ensures TailKept(Replacing(p, key, line)) && AppendedKept(Replacing(p, key, line))
  {
    hide Parse, IndexOf, Matches, OldSize, Text, KeyOf, Flat;
    if p.tail.Some? { RowOfKey(p.entries, key, line, p.tail.value.terminated); }
    if key in p.byKey { SwappedKept(p, p.byKey[key], key, line, ReplacingEntries(p, key, line)); }
  }

  /** One appended row is exchanged for another of the same key. */
  lemma SwappedKept(p: Plan, i: nat, key: Bytes, line: Bytes, entries: map<Bytes, Entry>)
    requires AppendedKept(p) && key in p.entries && COLON !in key && HasKey(line, key) && Flat(line)
    requires i < |p.appended| && p.appended[i].key == key && entries.Keys == p.entries.Keys
    ensures AppendedKept(p.(entries := entries, appended := p.appended[i := RowOf(p.entries, line, true)]))
  {
    hide RowOf, Text, HasKey, Flat;
    RowOfKey(p.entries, key, line, true);
  }

  /** A row of a selected key is indexed under it. */
  lemma RowOfKey(entries: map<Bytes, Entry>, key: Bytes, line: Bytes, terminated: bool)
    requires key in entries && COLON !in key && HasKey(line, key)
    ensures RowOf(entries, line, terminated) == Row(line, key, Text(Value(line, key)), terminated)
  {
    KeyOfLine(line, key);
  }

  /** A row appended to an unterminated tail becomes one line with it, indexed anew. */
  lemma MergingKept(p: Plan, key: Bytes, line: Bytes)
    requires PlanKept(p) && key in p.entries && HasKey(line, key) && Flat(line) && Matches(p, key) == 0
    requires p.tail.Some? && !p.tail.value.terminated && p.size + |line| + 1 <= WRITE_LIMIT
    ensures PlanKept(Merging(p, line))
    ensures DocumentOf(Merging(p, line)) == Edited(DocumentOf(p), key, line)
  {
    hide PlanKept, DocumentOf, Unparse, Parse, Edited, Matches, Mentions, RowOf, EntriesKept, AppendedKept, TailKept;
    IndexedCounts(p, key);
    EditedSize(DocumentOf(p), key, line);
    PlanParts(p, key);
    MergingDocument(p, key, line);
    MergedIndex(p, line);
    MergedTail(p, line);
    PlanOf(Merging(p, line));
  }

  lemma MergingDocument(p: Plan, key: Bytes, line: Bytes)
    requires TailKept(p) && p.tail.Some? && !p.tail.value.terminated && !Mentions(DocumentOf(p), key)
    ensures DocumentOf(Merging(p, line)) == Edited(DocumentOf(p), key, line)
  {
    hide Parse, BodyRows, KeyOf, Mentions;
    var p' := Merging(p, line);
    assert BodyRows(p') == BodyRows(p) by { BodySame(p, p'); }
    var body, merged := BodyRows(p), p.tail.value.line + line;
    assert DocumentOf(p') == Document(body + [merged] + [], []);
    assert DocumentOf(p) == Document(body + [] + [], p.tail.value.line);
  }

  lemma BodySame(p: Plan, p': Plan)
    requires p'.body == p.body && p'.entries == p.entries
    ensures BodyRows(p') == BodyRows(p)
  {
  }

  lemma MergedTail(p: Plan, line: Bytes)
    requires TailKept(p) && p.tail.Some? && Flat(line)
    ensures TailKept(Merging(p, line))
  {
    hide KeyOf, Text;
  }

  lemma MergedIndex(p: Plan, line: Bytes)
    requires EntriesKept(p) && AppendedKept(p) && p.tail.Some?
    ensures EntriesKept(Merging(p, line)) && AppendedKept(Merging(p, line))
  {
    hide BodyRows, Indexed, Text, KeyOf;
    BodySame(p, Merging(p, line));
  }

  lemma PlanParts(p: Plan, key: Bytes)
    requires PlanKept(p) && key in p.entries
    ensures Parse(p.body).last == [] && EntriesKept(p) && TailKept(p) && AppendedKept(p) && GoodKey(key)
    ensures p.size == |Unparse(DocumentOf(p))|
    ensures Matches(p, key) == 0 ==> key !in p.byKey
  {
    hide Unparse, DocumentOf, TailKept, AppendedKept, Parse;
  }

  lemma PlanOf(p: Plan)
    requires Parse(p.body).last == [] && EntriesKept(p) && TailKept(p) && AppendedKept(p)
    requires p.size == |Unparse(DocumentOf(p))| <= WRITE_LIMIT
    ensures PlanKept(p)
  {
  }

  lemma AppendingKept(p: Plan, key: Bytes, line: Bytes)
    requires PlanKept(p) && key in p.entries && HasKey(line, key) && Flat(line) && Matches(p, key) == 0
    requires p.tail.Some? ==> p.tail.value.terminated
    requires p.size + |line| + 1 <= WRITE_LIMIT
    ensures PlanKept(Appending(p, key, line))
    ensures DocumentOf(Appending(p, key, line)) == Edited(DocumentOf(p), key, line)
  {
    hide PlanKept, DocumentOf, Unparse, Parse, Edited, Matches, Mentions, RowOf, EntriesKept, AppendedKept, TailKept;
    IndexedCounts(p, key);
    EditedSize(DocumentOf(p), key, line);
    PlanParts(p, key);
    AppendingDocument(p, key, line);
    AppendingRows(p, key, line);
    AppendedIndex(p, key, line);
    PlanOf(Appending(p, key, line));
  }

  lemma AppendingDocument(p: Plan, key: Bytes, line: Bytes)
    requires (p.tail.Some? ==> p.tail.value.terminated) && !Mentions(DocumentOf(p), key)
    ensures DocumentOf(Appending(p, key, line)) == Edited(DocumentOf(p), key, line)
  {
    hide Parse, BodyRows, KeyOf, Mentions, Text;
    var p' := Appending(p, key, line);
    BodySame(p, p');
    var body, tail := BodyRows(p), TailRows(p.tail);
    assert AppendedLines(p'.appended) == AppendedLines(p.appended) + [line];
    assert body + tail + (AppendedLines(p.appended) + [line]) == body + tail + AppendedLines(p.appended) + [line];
    assert TailLast(p.tail) == [] && [] + line == line;
  }

  lemma AppendedIndex(p: Plan, key: Bytes, line: Bytes)
    requires EntriesKept(p) && TailKept(p) && (p.tail.Some? ==> p.tail.value.terminated)
    ensures EntriesKept(Appending(p, key, line)) && TailKept(Appending(p, key, line))
  {
    hide BodyRows, Indexed, Text, KeyOf, RowOf;
    BodySame(p, Appending(p, key, line));
  }

  lemma AppendingRows(p: Plan, key: Bytes, line: Bytes)
    requires AppendedKept(p) && GoodKey(key) && key in p.entries && key !in p.byKey && HasKey(line, key) && Flat(line)
    ensures AppendedKept(Appending(p, key, line))
  {
    hide RowOf, Text, HasKey, Flat;
    RowOfKey(p.entries, key, line, true);
  }
}
