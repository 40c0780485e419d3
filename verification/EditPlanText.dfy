/** What an edit plan stands for: a document in which the indexed counts, sizes and
    first values are exactly those of its current rows. */
module EditPlanText {
  import opened Basics
  import opened ConfigText

  datatype Entry = Entry(count: nat, contentSize: nat, first: Bytes, replacement: Bytes, replaced: bool)
  datatype Row = Row(line: Bytes, key: Bytes, value: Bytes, terminated: bool)

  /** The fields of a plan. `byKey` names the one appended row of a key by its place. */
  datatype Plan = Plan(
    body: Bytes, entries: map<Bytes, Entry>, tail: Option<Row>, appended: seq<Row>, byKey: map<Bytes, nat>, size: int)

  const SELECTED_LIMIT := 4097

  // ----- keys and rows -----

  predicate GoodKey(key: Bytes) {
    key != [] && COLON !in key && NUL !in key && CR !in key && LF !in key
  }

  /** The part of a line before its first colon. */
  function KeyOf(line: Bytes): Option<Bytes> {
    var n := IndexOf(line, COLON);
    if n < |line| then Some(line[..n]) else None
  }

  lemma KeyOfLine(line: Bytes, key: Bytes)
    requires COLON !in key
    ensures HasKey(line, key) <==> KeyOf(line) == Some(key)
  {
    var n := IndexOf(line, COLON);
    if HasKey(line, key) {
      assert line == key + [COLON] + line[|key| + 1..];
      IndexOfAt(key, COLON, line[|key| + 1..]);
    }
    if n < |line| && line[..n] == key {
      assert line[..n + 1] == key + [COLON];
      assert key + [COLON] <= line;
    }
  }

  /** A row as the plan indexes it: the key only when it was selected. */
  function RowOf(entries: map<Bytes, Entry>, line: Bytes, terminated: bool): Row {
    var key := KeyOf(line);
    if key.Some? && key.value in entries
    then Row(line, key.value, Text(line[|key.value| + 1..]), terminated)
    else Row(line, [], [], terminated)
  }

  // ----- the document of a plan -----

  function CurrentRow(entries: map<Bytes, Entry>, row: Bytes): Bytes {
    var key := KeyOf(row);
    if key.Some? && key.value in entries && entries[key.value].replaced then entries[key.value].replacement else row
  }

  function CurrentRows(entries: map<Bytes, Entry>, rows: seq<Bytes>): (r: seq<Bytes>)
    ensures |r| == |rows| && forall i | 0 <= i < |rows| :: r[i] == CurrentRow(entries, rows[i])
  {
    seq(|rows|, i requires 0 <= i < |rows| => CurrentRow(entries, rows[i]))
  }

  function AppendedLines(appended: seq<Row>): (r: seq<Bytes>)
    ensures |r| == |appended| && forall i | 0 <= i < |appended| :: r[i] == appended[i].line
  {
    seq(|appended|, i requires 0 <= i < |appended| => appended[i].line)
  }

  function TailRows(tail: Option<Row>): seq<Bytes> {
    if tail.Some? && tail.value.terminated then [tail.value.line] else []
  }

  function TailLast(tail: Option<Row>): Bytes {
    if tail.Some? && !tail.value.terminated then tail.value.line else []
  }

  function BodyRows(p: Plan): seq<Bytes> {
    CurrentRows(p.entries, Parse(p.body).rows)
  }

  function DocumentOf(p: Plan): Document {
    Document(BodyRows(p) + TailRows(p.tail) + AppendedLines(p.appended), TailLast(p.tail))
  }

  // ----- counting -----

  function Count(lines: seq<Bytes>, key: Bytes): nat {
    if lines == [] then 0 else (if HasKey(lines[0], key) then 1 else 0) + Count(lines[1..], key)
  }

  function Held(lines: seq<Bytes>, key: Bytes): nat {
    if lines == [] then 0 else (if HasKey(lines[0], key) then |lines[0]| else 0) + Held(lines[1..], key)
  }

  function Total(lines: seq<Bytes>): nat {
    if lines == [] then 0 else |lines[0]| + Total(lines[1..])
  }

  lemma {:induction false} CountMore(a: seq<Bytes>, b: seq<Bytes>, key: Bytes)
    ensures Count(a + b, key) == Count(a, key) + Count(b, key)
    ensures Held(a + b, key) == Held(a, key) + Held(b, key)
    ensures Total(a + b) == Total(a) + Total(b)
  {
    if a == [] {
      assert a + b == b;
    } else {
      assert (a + b)[1..] == a[1..] + b;
      CountMore(a[1..], b, key);
    }
  }

  lemma {:induction false} CountFirst(lines: seq<Bytes>, key: Bytes)
    ensures Count(lines, key) > 0 <==> FirstLine(lines, key).Some?
    ensures Count(lines, key) == 0 ==> Held(lines, key) == 0
  {
    if lines != [] { CountFirst(lines[1..], key); }
  }

  lemma {:induction false} JoinTotal(rows: seq<Bytes>)
    ensures |Join(rows)| == Total(rows) + |rows|
  {
    if rows != [] { JoinTotal(rows[1..]); }
  }

  /** Replacing the rows of a key changes the total by what the key held. */
  lemma {:induction false} ReplacedTotal(lines: seq<Bytes>, key: Bytes, line: Bytes)
    requires HasKey(line, key)
    ensures Total(ReplacedRows(lines, key, line)) == Total(lines) - Held(lines, key) + Count(lines, key) * |line|
    ensures Count(ReplacedRows(lines, key, line), key) == Count(lines, key)
    ensures Held(ReplacedRows(lines, key, line), key) == Count(lines, key) * |line|
  {
    hide HasKey;
    if lines != [] {
      assert ReplacedRows(lines, key, line)[1..] == ReplacedRows(lines[1..], key, line);
      ReplacedTotal(lines[1..], key, line);
      if HasKey(lines[0], key) {
        assert Count(lines, key) * |line| == |line| + Count(lines[1..], key) * |line|;
      }
    }
  }

  /** The other keys of a document do not notice. */
  lemma {:induction false} ReplacedOther(lines: seq<Bytes>, key: Bytes, line: Bytes, other: Bytes)
    requires HasKey(line, key) && COLON !in key && COLON !in other && other != key
    ensures Count(ReplacedRows(lines, key, line), other) == Count(lines, other)
    ensures Held(ReplacedRows(lines, key, line), other) == Held(lines, other)
    ensures FirstLine(ReplacedRows(lines, key, line), other) == FirstLine(lines, other)
  {
    KeyOfLine(line, key);
    KeyOfLine(line, other);
    if lines != [] {
      assert ReplacedRows(lines, key, line)[1..] == ReplacedRows(lines[1..], key, line);
      ReplacedOther(lines[1..], key, line, other);
      KeyOfLine(lines[0], key);
      KeyOfLine(lines[0], other);
    }
  }

  // ----- what a plan keeps -----

  /** The entry of a key describes the key's current body rows. */
  predicate Indexed(entry: Entry, key: Bytes, rows: seq<Bytes>) {
    && entry.count == Count(rows, key) && entry.contentSize == Held(rows, key)
    && (FirstLine(rows, key).Some? ==> entry.first == Text(Value(FirstLine(rows, key).value, key)))
    && (entry.replaced ==> HasKey(entry.replacement, key) && Flat(entry.replacement))
  }

  predicate EntriesKept(p: Plan) {
    forall k | k in p.entries :: GoodKey(k) && Indexed(p.entries[k], k, BodyRows(p))
  }

  predicate TailKept(p: Plan) {
    p.tail.Some? ==>
      && p.tail.value == RowOf(p.entries, p.tail.value.line, p.tail.value.terminated)
      && Flat(p.tail.value.line)
      && (p.tail.value.terminated || (p.appended == [] && p.tail.value.line != []))
  }

  /** Each appended row is the only one of its key, and is found by it. */
  predicate AppendedKept(p: Plan) {
    && (forall i | 0 <= i < |p.appended| ::
          && p.appended[i].key in p.entries && p.appended[i].terminated && Flat(p.appended[i].line)
          && HasKey(p.appended[i].line, p.appended[i].key)
          && p.appended[i].value == Text(Value(p.appended[i].line, p.appended[i].key))
          && p.appended[i].key in p.byKey && p.byKey[p.appended[i].key] == i)
    && (forall k | k in p.byKey :: k in p.entries && p.byKey[k] < |p.appended| && p.appended[p.byKey[k]].key == k)
  }

  predicate PlanKept(p: Plan) {
    Together(
      && Parse(p.body).last == []
      && EntriesKept(p) && TailKept(p) && AppendedKept(p)
      && p.size == |Unparse(DocumentOf(p))| <= WRITE_LIMIT)
  }

  // ----- reading off the document -----

  lemma {:induction false} AppendedRowFirst(appended: seq<Row>, key: Bytes, from: nat)
    requires from <= |appended|
    requires forall i | 0 <= i < |appended| :: COLON !in appended[i].key && HasKey(appended[i].line, appended[i].key)
    requires COLON !in key
    requires forall i, j | 0 <= i < |appended| && 0 <= j < |appended| && appended[i].key == appended[j].key :: i == j
    ensures
      var lines := AppendedLines(appended)[from..];
      && (FirstLine(lines, key).None? <==> forall i | from <= i < |appended| :: appended[i].key != key)
      && (forall i | from <= i < |appended| && appended[i].key == key ::
            && FirstLine(lines, key) == Some(appended[i].line)
            && Count(lines, key) == 1 && Held(lines, key) == |appended[i].line|)
    decreases |appended| - from
  {
    if from < |appended| {
      AppendedRowFirst(appended, key, from + 1);
      var lines := AppendedLines(appended)[from..];
      assert lines[1..] == AppendedLines(appended)[from + 1..];
      KeyOfLine(appended[from].line, key);
      KeyOfLine(appended[from].line, appended[from].key);
      CountFirst(lines[1..], key);
    }
  }
}
