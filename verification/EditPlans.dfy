/** The indexed batch editor, which never rewrites its input until it renders. */
module EditPlans {
  import opened Basics
  import opened ConfigText
  import opened ConfigFiles
  import opened ConfigLaws
  import opened EditPlanText
  import opened EditPlanSteps

  /** A value that Set accepts: it survives on one physical row. */
  predicate Settable(value: Bytes) {
    NUL !in value && CR !in value && LF !in value && QUOTE !in value
  }

  function KeySet(keys: seq<Bytes>): set<Bytes> {
    set k | k in keys
  }

  predicate Selectable(keys: seq<Bytes>) {
    (forall k | k in keys :: GoodKey(k)) && |KeySet(keys)| <= SELECTED_LIMIT
  }

  class EditPlan {
    var body: Bytes
    var entries: map<Bytes, Entry>
    var tail: Option<Row>
    var appended: seq<Row>
    var byKey: map<Bytes, nat>
    var size: int

    function View(): Plan
      reads this
    {
      Plan(body, entries, tail, appended, byKey, size)
    }

    ghost predicate Valid()
      reads this
    {
      PlanKept(View())
    }

    /** The configuration the plan stands for. */
    ghost function Contents(): Bytes
      reads this
    {
      Unparse(DocumentOf(View()))
    }

    constructor (p: Plan)
      ensures View() == p
    {
      body, entries, tail, appended, byKey, size := p.body, p.entries, p.tail, p.appended, p.byKey, p.size;
    }

    /** Reads the first matching row after the planned edits. */
    method Get(key: Bytes, fallback: Bytes) returns (r: Option<Bytes>)
      requires Valid()
      ensures r == if key in entries then Some(Read(Contents(), key, fallback)) else None
    {
      hide PlanKept, DocumentOf, Parse, Unparse, Text;
      if key !in entries { return None; }
      var value: Bytes := [];
      PlanParts(View(), key);
      IndexedFirst(View(), key);
      ReadsDocument(View(), key);
      if entries[key].count > 0 {
        value := entries[key].first;
      } else if tail.Some? && tail.value.key == key {
        value := tail.value.value;
      } else if key in byKey {
        value := appended[byKey[key]].value;
      }
      r := Some(if value == [] then fallback else value);
    }

    /** One physical-line rewrite. It is refused, with nothing changed, exactly when
        the key was not selected, the value would not survive, or the sequential
        rewrite would exceed the limit. */
    method Set(key: Bytes, value: Bytes) returns (ok: bool)
      requires Valid()
      modifies this
      ensures Valid() && entries.Keys == old(entries).Keys
      ensures ok <==> key in old(entries) && Settable(value) && |Rewrite(old(Contents()), key, value)| <= WRITE_LIMIT
      ensures ok ==> Contents() == Rewrite(old(Contents()), key, value)
      ensures !ok ==> View() == old(View())
    {
      hide PlanKept, DocumentOf, Parse, Unparse, Edited, Text, Rewrite, RowOf, Mentions;
      if key !in entries || NUL in value || CR in value || LF in value || QUOTE in value { return false; }
      var line := ConfigurationLine(key, value);
      ghost var p := View();
      RewritesDocument(p, key, value);
      IndexedCounts(p, key);
      var count, oldSize := entries[key].count, entries[key].contentSize;
      var tailMatches := tail.Some? && tail.value.key == key;
      if tailMatches { count, oldSize := count + 1, oldSize + |tail.value.line|; }
      if key in byKey { count, oldSize := count + 1, oldSize + |appended[byKey[key]].line|; }
      var after := if count == 0 then size + |line| + 1 else size - oldSize + count * |line|;
      if after > WRITE_LIMIT { return false; }
      ok := true;
      if count == 0 {
        if tail.Some? && !tail.value.terminated {
          // Appending deliberately does not repair an unterminated input row.
          MergingKept(p, key, line);
          tail := Some(RowOf(entries, tail.value.line + line, true));
        } else {
          AppendingKept(p, key, line);
          appended, byKey := appended + [RowOf(entries, line, true)], byKey[key := |appended|];
        }
      } else {
        ReplacingKept(p, key, line);
        var selected := entries;
        if tailMatches { tail := Some(RowOf(selected, line, tail.value.terminated)); }
        if key in byKey { appended := appended[byKey[key] := RowOf(selected, line, true)]; }
        if entries[key].count > 0 {
          entries := entries[key := ReplacedEntry(entries[key], key, line)];
        }
      }
      size := after;
    }

    /** Renders once, in the original row order. */
    method Render() returns (output: Bytes)
      requires Valid()
      ensures output == Contents() && |output| == size
    {
      hide PlanKept, Unparse, DocumentOf, BodyRows, TailRows, TailLast, AppendedLines;
      BodyParts(View());
      output := RenderBody();
      RenderedTail(View());
      if tail.Some? {
        output := output + tail.value.line;
        if tail.value.terminated { output := output + [LF]; }
      }
      var i := 0;
      while i < |appended|
        invariant 0 <= i <= |appended|
        invariant output == RenderedUpTo(View(), i)
      {
        RenderedAppended(View(), i);
        output := output + appended[i].line + [LF];
        i := i + 1;
      }
      RenderedDocument(View());
    }

    /** The body, with the rows of every edited key replaced. */
    method RenderBody() returns (output: Bytes)
      requires Parse(body).last == []
      ensures output == Join(BodyRows(View()))
    {
      hide Text, IndexOf, Parse;
      output := [];
      var remaining := body;
      ghost var rows: seq<Bytes> := [];
      while remaining != []
        invariant Parse(body).rows == rows + Parse(remaining).rows && Parse(remaining).last == []
        invariant output == Join(CurrentRows(entries, rows))
        decreases |remaining|
      {
        CutLine(remaining);
        var n := IndexOf(remaining, LF);
        BodyTerminated(remaining);
        var line := remaining[..n];
        RenderedRow(entries, rows, line);
        assert rows + ([line] + Parse(remaining[n + 1..]).rows) == (rows + [line]) + Parse(remaining[n + 1..]).rows;
        output := output + CurrentRow(entries, line) + [LF];
        rows := rows + [line];
        remaining := remaining[n + 1..];
      }
      EmptyBody(body, rows);
    }
  }

  /** The rendering up to the i-th appended row. */
  ghost function RenderedUpTo(p: Plan, i: nat): Bytes
    requires i <= |p.appended|
  {
    Join(BodyRows(p) + TailRows(p.tail) + AppendedLines(p.appended)[..i]) + TailLast(p.tail)
  }

  lemma BodyParts(p: Plan)
    requires PlanKept(p)
    ensures Parse(p.body).last == [] && TailKept(p) && p.size == |Unparse(DocumentOf(p))|
  {
    hide Parse, DocumentOf, Unparse, EntriesKept, AppendedKept, TailKept;
  }

  lemma BodyTerminated(remaining: Bytes)
    requires remaining != [] && Parse(remaining).last == []
    ensures IndexOf(remaining, LF) < |remaining|
  {
    hide IndexOf;
  }

  lemma EmptyBody(body: Bytes, rows: seq<Bytes>)
    requires Parse(body).rows == rows + Parse([]).rows
    ensures Parse(body).rows == rows
  {
    assert Parse([]) == Document([], []);
  }

  lemma RenderedRow(entries: map<Bytes, Entry>, rows: seq<Bytes>, line: Bytes)
    ensures Join(CurrentRows(entries, rows + [line]))
         == Join(CurrentRows(entries, rows)) + CurrentRow(entries, line) + [LF]
  {
    hide CurrentRow;
    assert CurrentRows(entries, rows + [line]) == CurrentRows(entries, rows) + [CurrentRow(entries, line)];
    JoinMore(CurrentRows(entries, rows), [CurrentRow(entries, line)]);
    JoinOne(CurrentRow(entries, line));
  }

  lemma RenderedTail(p: Plan)
    ensures RenderedUpTo(p, 0) == Join(BodyRows(p)) +
      (if p.tail.Some? then p.tail.value.line + (if p.tail.value.terminated then [LF] else []) else [])
  {
    hide BodyRows;
    assert BodyRows(p) + TailRows(p.tail) + AppendedLines(p.appended)[..0] == BodyRows(p) + TailRows(p.tail);
    JoinMore(BodyRows(p), TailRows(p.tail));
    if p.tail.Some? && p.tail.value.terminated { JoinOne(p.tail.value.line); }
  }

  lemma RenderedAppended(p: Plan, i: nat)
    requires TailKept(p) && i < |p.appended|
    ensures RenderedUpTo(p, i + 1) == RenderedUpTo(p, i) + p.appended[i].line + [LF]
  {
    hide BodyRows, KeyOf, Text, RowOf;
    var rows, lines := BodyRows(p) + TailRows(p.tail), AppendedLines(p.appended);
    assert rows + lines[..i + 1] == (rows + lines[..i]) + [lines[i]];
    JoinMore(rows + lines[..i], [lines[i]]);
    JoinOne(lines[i]);
    assert TailLast(p.tail) == [];
  }

  lemma RenderedDocument(p: Plan)
    ensures Unparse(DocumentOf(p)) == RenderedUpTo(p, |p.appended|)
  {
    hide BodyRows;
    assert AppendedLines(p.appended)[..|p.appended|] == AppendedLines(p.appended);
  }

  // ----- building a plan -----

  /** The index after a prefix of the body rows, before any edit. */
  predicate Scanned(entries: map<Bytes, Entry>, rows: seq<Bytes>) {
    forall k | k in entries :: GoodKey(k) && !entries[k].replaced && Indexed(entries[k], k, rows)
  }

  function ScannedRow(entries: map<Bytes, Entry>, line: Bytes): map<Bytes, Entry> {
    var key := KeyOf(line);
    if key.None? || key.value !in entries then entries
    else
      var e := entries[key.value];
      var first := if e.count == 0 then Text(line[|key.value| + 1..]) else e.first;
      entries[key.value := Entry(e.count + 1, e.contentSize + |line|, first, e.replacement, e.replaced)]
  }

  lemma ScannedOn(entries: map<Bytes, Entry>, rows: seq<Bytes>, line: Bytes)
    requires Scanned(entries, rows)
    ensures Scanned(ScannedRow(entries, line), rows + [line]) && ScannedRow(entries, line).Keys == entries.Keys
  {
    hide Text, Count, Held, FirstLine, IndexOf;
    var entries' := ScannedRow(entries, line);
    forall k | k in entries' ensures GoodKey(k) && !entries'[k].replaced && Indexed(entries'[k], k, rows + [line]) {
      assert GoodKey(k) && Indexed(entries[k], k, rows);
      ScannedEntry(entries[k], rows, line, k);
    }
  }

  lemma ScannedEntry(e: Entry, rows: seq<Bytes>, line: Bytes, k: Bytes)
    requires Indexed(e, k, rows) && GoodKey(k)
    ensures HasKey(line, k) <==> KeyOf(line) == Some(k)
    ensures !HasKey(line, k) ==> Indexed(e, k, rows + [line])
    ensures HasKey(line, k) ==>
      Indexed(Entry(e.count + 1, e.contentSize + |line|, if e.count == 0 then Text(line[|k| + 1..]) else e.first,
                    e.replacement, e.replaced), k, rows + [line])
  {
    hide Text, IndexOf;
    KeyOfLine(line, k);
    CountMore(rows, [line], k);
    FirstMore(rows, [line], k);
    CountFirst(rows, k);
    assert [line][1..] == [];
  }

  lemma ScannedNone(entries: map<Bytes, Entry>)
    requires forall k | k in entries :: GoodKey(k) && entries[k] == Entry(0, 0, [], [], false)
    ensures Scanned(entries, [])
  {
  }

  method Select(keys: seq<Bytes>) returns (entries: Option<map<Bytes, Entry>>)
    ensures entries.Some? <==> Selectable(keys)
    ensures entries.Some? ==>
      && entries.value.Keys == KeySet(keys)
      && forall k | k in entries.value :: GoodKey(k) && entries.value[k] == Entry(0, 0, [], [], false)
  {
    var selected: map<Bytes, Entry> := map[];
    for i := 0 to |keys|
      invariant selected.Keys == KeySet(keys[..i])
      invariant forall k | k in keys[..i] :: GoodKey(k)
      invariant forall k | k in selected :: GoodKey(k) && selected[k] == Entry(0, 0, [], [], false)
      invariant |selected| <= SELECTED_LIMIT
    {
      var key := keys[i];
      assert keys[..i + 1] == keys[..i] + [key];
      if key == [] || COLON in key || NUL in key || CR in key || LF in key {
        assert key in keys && !GoodKey(key);
        return None;
      }
      if key !in selected {
        if |selected| == SELECTED_LIMIT {
          TooMany(selected.Keys, keys, i);
          return None;
        }
        selected := selected[key := Entry(0, 0, [], [], false)];
      }
    }
    assert keys[..|keys|] == keys;
    assert |selected.Keys| == |selected|;
    entries := Some(selected);
  }

  lemma TooMany(selected: set<Bytes>, keys: seq<Bytes>, i: nat)
    requires i < |keys| && selected == KeySet(keys[..i]) && keys[i] !in selected && |selected| == SELECTED_LIMIT
    ensures |KeySet(keys)| > SELECTED_LIMIT
  {
    var more := selected + {keys[i]};
    assert more <= KeySet(keys);
    SubsetSize(more, KeySet(keys));
  }

  /** Scans the input once, indexing only the selected keys. */
  method NewEditPlan(data: Bytes, keys: seq<Bytes>) returns (p: EditPlan?)
    ensures p != null <==> |data| <= WRITE_LIMIT && Selectable(keys)
    ensures p != null ==> fresh(p) && p.Valid() && p.Contents() == data && p.entries.Keys == KeySet(keys)
  {
    hide PlanKept, DocumentOf, Unparse, Text, IndexOf, Parse, Scanned, ScannedRow, Indexed, Selectable, RowOf;
    p := null;
    if |data| > WRITE_LIMIT { return; }
    var selected := Select(keys);
    if selected.None? { return; }
    var entries, remaining, offset := selected.value, data, 0;
    ghost var rows: seq<Bytes> := [];
    ScannedNone(entries);
    var tail: Option<Row> := None;
    while remaining != [] && tail.None?
      invariant Parse(data).rows == rows + Parse(remaining).rows && Parse(data).last == Parse(remaining).last
      invariant offset <= |data| && data == Join(rows) + remaining && offset == |Join(rows)|
      invariant Scanned(entries, rows) && entries.Keys == selected.value.Keys
      invariant tail.Some? ==> tail == Some(RowOf(entries, remaining, false)) && remaining != [] && Flat(remaining)
      decreases |remaining|, tail.None?
    {
      CutLine(remaining);
      var n := IndexOf(remaining, LF);
      if n == |remaining| {
        assert remaining[..n] == remaining;
        tail := Some(RowOf(entries, remaining, false));
      } else {
        var line := remaining[..n];
        ScannedOn(entries, rows, line);
        TakenRow(rows, remaining, n);
        TakenBytes(rows, remaining, n);
        entries := ScannedRow(entries, line);
        rows := rows + [line];
        offset, remaining := offset + n + 1, remaining[n + 1..];
      }
    }
    var body := if tail.Some? then data[..offset] else data;
    ScannedPlan(data, body, rows, remaining, entries, tail);
    p := new EditPlan(Plan(body, entries, tail, [], map[], |data|));
  }

  lemma TakenRow(rows: seq<Bytes>, remaining: Bytes, n: nat)
    requires n == IndexOf(remaining, LF) < |remaining|
    ensures rows + Parse(remaining).rows == (rows + [remaining[..n]]) + Parse(remaining[n + 1..]).rows
    ensures Parse(remaining).last == Parse(remaining[n + 1..]).last
  {
    hide IndexOf, Parse;
    CutLine(remaining);
    Regrouped(rows, remaining[..n], Parse(remaining[n + 1..]).rows);
  }

  lemma Regrouped(rows: seq<Bytes>, line: Bytes, rest: seq<Bytes>)
    ensures rows + ([line] + rest) == (rows + [line]) + rest
  {
  }

  lemma TakenBytes(rows: seq<Bytes>, remaining: Bytes, n: nat)
    requires n < |remaining| && remaining[n] == LF
    ensures Join(rows + [remaining[..n]]) + remaining[n + 1..] == Join(rows) + remaining
    ensures |Join(rows + [remaining[..n]])| == |Join(rows)| + n + 1
  {
    var line := remaining[..n];
    JoinMore(rows, [line]);
    JoinOne(line);
    assert remaining == line + [LF] + remaining[n + 1..];
  }

  /** The scanned input, before any edit, stands for itself. */
  lemma ScannedPlan(
    data: Bytes, body: Bytes, rows: seq<Bytes>, remaining: Bytes, entries: map<Bytes, Entry>, tail: Option<Row>)
    requires |data| <= WRITE_LIMIT && data == Join(rows) + remaining && Scanned(entries, rows)
    requires Parse(data).rows == rows + Parse(remaining).rows
    requires
      if tail.Some? then
        && tail == Some(RowOf(entries, remaining, false)) && remaining != [] && Flat(remaining)
        && body == data[..|Join(rows)|]
      else remaining == [] && body == data
    ensures
      var p := Plan(body, entries, tail, [], map[], |data|);
      PlanKept(p) && Unparse(DocumentOf(p)) == data
  {
    hide Text, IndexOf, Parse, Count, Held, FirstLine, KeyOf;
    var p := Plan(body, entries, tail, [], map[], |data|);
    assert body == Join(rows);
    assert FlatRows(rows) by { FlatPart(data, rows, remaining); }
    assert Unparse(Document(rows, [])) == body;
    ParseUnparse(Document(rows, []));
    Unreplaced(entries, rows);
    assert BodyRows(p) == rows;
    assert rows + TailRows(tail) + AppendedLines([]) == rows;
  }

  lemma FlatPart(data: Bytes, rows: seq<Bytes>, remaining: Bytes)
    requires Parse(data).rows == rows + Parse(remaining).rows
    ensures FlatRows(rows)
  {
    hide Parse;
    forall r | r in rows ensures Flat(r) { assert r in Parse(data).rows; }
  }

  lemma Unreplaced(entries: map<Bytes, Entry>, rows: seq<Bytes>)
    requires Scanned(entries, rows)
    ensures CurrentRows(entries, rows) == rows
  {
    hide Indexed, KeyOf;
  }

  // ----- a batch of edits -----

  datatype Edit = Edit(key: Bytes, value: Bytes)

  /** The simple rewriter, applied to every edit it and the plan's grammar accept. */
  function Sequential(data: Bytes, keys: set<Bytes>, edits: seq<Edit>): Bytes {
    if edits == [] then data
    else
      var before, edit := Sequential(data, keys, edits[..|edits| - 1]), edits[|edits| - 1];
      if edit.key in keys && Settable(edit.value) && |Rewrite(before, edit.key, edit.value)| <= WRITE_LIMIT
      then Rewrite(before, edit.key, edit.value)
      else before
  }

  /** A whole batch renders to what the simple rewriter makes of it, edit by edit. */
  method Batch(data: Bytes, keys: seq<Bytes>, edits: seq<Edit>) returns (output: Option<Bytes>)
    ensures output == if |data| <= WRITE_LIMIT && Selectable(keys)
      then Some(Sequential(data, KeySet(keys), edits)) else None
  {
    hide PlanKept, DocumentOf, Unparse, Rewrite, Selectable, Settable;
    var p := NewEditPlan(data, keys);
    if p == null { return None; }
    assert edits[..0] == [];
    for i := 0 to |edits|
      invariant p.Valid() && fresh(p) && p.entries.Keys == KeySet(keys)
      invariant p.Contents() == Sequential(data, KeySet(keys), edits[..i])
    {
      assert edits[..i + 1][..i] == edits[..i];
      ghost var before := p.View();
      var ok := p.Set(edits[i].key, edits[i].value);
      assert !ok ==> p.View() == before;
    }
    assert edits[..|edits|] == edits;
    var rendered := p.Render();
    output := Some(rendered);
  }

  /** Reading the rendered bytes is reading the document. */
  lemma ReadsDocument(p: Plan, key: Bytes)
    requires PlanKept(p) && key in p.entries
    ensures forall fallback ::
      var line := FirstLine(Lines(DocumentOf(p)), key);
      Read(Unparse(DocumentOf(p)), key, fallback)
        == if line.None? then fallback else Normalized(Value(line.value, key), fallback)
  {
    hide Parse, Text, FirstLine, DocumentOf, Unparse;
    DocumentFlat(p);
    ParseUnparse(DocumentOf(p));
  }

  lemma DocumentFlat(p: Plan)
    requires PlanKept(p)
    ensures FlatRows(DocumentOf(p).rows) && Flat(DocumentOf(p).last)
  {
    hide Count, Held, Text, FirstLine, IndexOf, Unparse, Parse, KeyOf;
    forall i | 0 <= i < |BodyRows(p)| ensures Flat(BodyRows(p)[i]) {
      var row := Parse(p.body).rows[i];
      assert row in Parse(p.body).rows;
      var key := KeyOf(row);
      if key.Some? && key.value in p.entries { assert Indexed(p.entries[key.value], key.value, BodyRows(p)); }
    }
  }

  /** The sequential rewrite of the rendered bytes, in the document's terms. */
  lemma RewritesDocument(p: Plan, key: Bytes, value: Bytes)
    requires PlanKept(p) && key in p.entries && Settable(value)
    ensures
      var doc, line := DocumentOf(p), ConfigurationLine(key, value);
      && HasKey(line, key) && Flat(line)
      && Rewrite(Unparse(doc), key, value) == Unparse(Edited(doc, key, line))
      && p.size == |Unparse(doc)|
      && |Rewrite(Unparse(doc), key, value)| == if Mentions(doc, key)
           then |Unparse(doc)| - Held(Lines(doc), key) + Count(Lines(doc), key) * |line|
           else |Unparse(doc)| + |line| + 1
  {
    hide Parse, Text, FirstLine, DocumentOf, Unparse, PlanKept, Edited, Rewrite, Mentions;
    DocumentFlat(p);
    ParseUnparse(DocumentOf(p));
    PlanParts(p, key);
    LineHasKey(key, value);
    RewriteEdits(Unparse(DocumentOf(p)), key, value);
    EditedSize(DocumentOf(p), key, ConfigurationLine(key, value));
  }
}
