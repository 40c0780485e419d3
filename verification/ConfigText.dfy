/** The flat configuration grammar: physical lines, the first matching key, and the
    rewriting of one key, on bytes. */
module ConfigText {
  import opened Basics

  const NUL: Byte := 0
  const TAB: Byte := 9
  const LF: Byte := 10
  const VT: Byte := 11
  const FF: Byte := 12
  const CR: Byte := 13
  const SPACE: Byte := 32
  const QUOTE: Byte := 34
  const HASH: Byte := 35
  const COLON: Byte := 58

  const WRITE_LIMIT := 16777216

  // ----- physical lines -----

  /** Terminated rows, and the bytes after the last newline. */
  datatype Document = Document(rows: seq<Bytes>, last: Bytes)

  predicate Flat(line: Bytes) {
    LF !in line
  }

  predicate FlatRows(rows: seq<Bytes>) {
    forall r | r in rows :: Flat(r)
  }

  /** Where the byte first occurs; the length when it does not. */
  function IndexOf(data: Bytes, b: Byte): (n: nat)
    ensures n <= |data| && b !in data[..n] && (n < |data| ==> data[n] == b)
  {
    if data == [] || data[0] == b then 0
    else
      var n := IndexOf(data[1..], b);
      assert data[..n + 1] == [data[0]] + data[1..][..n];
      n + 1
  }

  function Parse(data: Bytes): (doc: Document)
    ensures FlatRows(doc.rows) && Flat(doc.last)
    decreases |data|
  {
    var n := IndexOf(data, LF);
    if n == |data| then
      assert data[..n] == data;
      Document([], data)
    else
      var doc := Parse(data[n + 1..]);
      Document([data[..n]] + doc.rows, doc.last)
  }

  function Join(rows: seq<Bytes>): Bytes {
    if rows == [] then [] else rows[0] + [LF] + Join(rows[1..])
  }

  function Unparse(doc: Document): Bytes {
    Join(doc.rows) + doc.last
  }

  lemma {:induction false} JoinMore(a: seq<Bytes>, b: seq<Bytes>)
    ensures Join(a + b) == Join(a) + Join(b)
  {
    if a == [] {
      assert a + b == b;
    } else {
      JoinMore(a[1..], b);
      assert (a + b)[0] == a[0] && (a + b)[1..] == a[1..] + b;
    }
  }

  lemma UnparseMore(row: Bytes, doc: Document)
    ensures Unparse(Document([row] + doc.rows, doc.last)) == row + [LF] + Unparse(doc)
  {
    var rows := [row] + doc.rows;
    assert rows[0] == row && rows[1..] == doc.rows;
  }

  lemma {:induction false} UnparseParse(data: Bytes)
    ensures Unparse(Parse(data)) == data
    decreases |data|
  {
    hide IndexOf, Unparse;
    var n := IndexOf(data, LF);
    if n < |data| {
      var rest := data[n + 1..];
      UnparseParse(rest);
      UnparseMore(data[..n], Parse(rest));
      assert data == data[..n] + [LF] + rest;
    } else {
      assert Unparse(Document([], data)) == data by { UnparseLast(data); }
    }
  }

  lemma UnparseLast(last: Bytes)
    ensures Unparse(Document([], last)) == last
  {
  }

  lemma {:induction false} IndexOfAt(head: Bytes, b: Byte, rest: Bytes)
    requires b !in head
    ensures IndexOf(head + [b] + rest, b) == |head|
  {
    var data := head + [b] + rest;
    if head == [] {
      assert data[0] == b;
    } else {
      IndexOfAt(head[1..], b, rest);
      assert data[1..] == head[1..] + [b] + rest;
    }
  }

  lemma {:induction false} IndexOfNone(data: Bytes, b: Byte)
    requires b !in data
    ensures IndexOf(data, b) == |data|
  {
    if data != [] { IndexOfNone(data[1..], b); }
  }

  lemma {:induction false} ParseUnparse(doc: Document)
    requires FlatRows(doc.rows) && Flat(doc.last)
    ensures Parse(Unparse(doc)) == doc
    decreases |doc.rows|
  {
    hide IndexOf, Unparse;
    if doc.rows == [] {
      IndexOfNone(doc.last, LF);
      UnparseLast(doc.last);
    } else {
      var row, rest := doc.rows[0], Document(doc.rows[1..], doc.last);
      assert row in doc.rows;
      ParseUnparse(rest);
      assert [row] + rest.rows == doc.rows;
      UnparseMore(row, rest);
      ParseRow(row, Unparse(rest));
    }
  }

  lemma ParseRow(row: Bytes, data: Bytes)
    requires Flat(row)
    ensures Parse(row + [LF] + data) == Document([row] + Parse(data).rows, Parse(data).last)
  {
    IndexOfAt(row, LF, data);
    assert (row + [LF] + data)[|row| + 1..] == data;
    assert (row + [LF] + data)[..|row|] == row;
    hide IndexOf;
  }

  // ----- keys -----

  predicate HasKey(line: Bytes, key: Bytes) {
    key + [COLON] <= line
  }

  function ConfigurationLine(key: Bytes, value: Bytes): Bytes {
    key + [COLON, SPACE, QUOTE] + value + [QUOTE]
  }

  lemma LineHasKey(key: Bytes, value: Bytes)
    ensures HasKey(ConfigurationLine(key, value), key)
    ensures ConfigurationLine(key, value)[|key| + 1..] == [SPACE, QUOTE] + value + [QUOTE]
    ensures Flat(key) && Flat(value) ==> Flat(ConfigurationLine(key, value))
  {
    var line := ConfigurationLine(key, value);
    assert line[..|key| + 1] == key + [COLON];
  }

  // ----- rewriting -----

  function Replaced(row: Bytes, key: Bytes, line: Bytes): Bytes {
    if HasKey(row, key) then line else row
  }

  function ReplacedRows(rows: seq<Bytes>, key: Bytes, line: Bytes): (r: seq<Bytes>)
    ensures |r| == |rows| && forall i | 0 <= i < |rows| :: r[i] == Replaced(rows[i], key, line)
  {
    seq(|rows|, i requires 0 <= i < |rows| => Replaced(rows[i], key, line))
  }

  predicate Mentions(doc: Document, key: Bytes) {
    (exists r | r in doc.rows :: HasKey(r, key)) || HasKey(doc.last, key)
  }

  function Spaced(value: Bytes): (r: Bytes)
    ensures |r| == |value| && Flat(r) && (Flat(value) ==> r == value)
  {
    var r := seq(|value|, i requires 0 <= i < |value| => if value[i] == LF then SPACE else value[i]);
    assert Flat(value) ==> r == value;
    r
  }

  /** Every row of the key is replaced; without one, a row is appended after the
      bytes as they stand. */
  function Rewrite(data: Bytes, key: Bytes, value: Bytes): Bytes {
    var doc, line := Parse(data), ConfigurationLine(key, Spaced(value));
    var body := Join(ReplacedRows(doc.rows, key, line)) + Replaced(doc.last, key, line);
    if Mentions(doc, key) then body else body + ConfigurationLine(key, value) + [LF]
  }

  /** The same on lines: an unterminated last line absorbs the appended row. */
  function Edited(doc: Document, key: Bytes, line: Bytes): Document {
    if Mentions(doc, key) then Document(ReplacedRows(doc.rows, key, line), Replaced(doc.last, key, line))
    else Document(doc.rows + [doc.last + line], [])
  }

  lemma RewriteEdits(data: Bytes, key: Bytes, value: Bytes)
    requires Flat(key) && Flat(value)
    ensures
      var line := ConfigurationLine(key, value);
      && Rewrite(data, key, value) == Unparse(Edited(Parse(data), key, line))
      && Parse(Rewrite(data, key, value)) == Edited(Parse(data), key, line)
  {
    hide IndexOf, Parse;
    var doc, line := Parse(data), ConfigurationLine(key, value);
    LineHasKey(key, value);
    assert Spaced(value) == value;
    EditedFlat(doc, key, line);
    if !Mentions(doc, key) { AppendedRow(doc, key, line); }
    ParseUnparse(Edited(doc, key, line));
  }

  lemma EditedFlat(doc: Document, key: Bytes, line: Bytes)
    requires FlatRows(doc.rows) && Flat(doc.last) && Flat(line)
    ensures FlatRows(Edited(doc, key, line).rows) && Flat(Edited(doc, key, line).last)
  {
    var edited := Edited(doc, key, line);
    forall r | r in edited.rows ensures Flat(r) {
      var i :| 0 <= i < |edited.rows| && edited.rows[i] == r;
      assert i < |doc.rows| ==> doc.rows[i] in doc.rows;
    }
  }

  lemma AppendedRow(doc: Document, key: Bytes, line: Bytes)
    requires !Mentions(doc, key)
    ensures Join(ReplacedRows(doc.rows, key, line)) + Replaced(doc.last, key, line) + line + [LF]
         == Unparse(Document(doc.rows + [doc.last + line], []))
  {
    assert ReplacedRows(doc.rows, key, line) == doc.rows;
    JoinMore(doc.rows, [doc.last + line]);
    assert Join([doc.last + line]) == doc.last + line + [LF];
  }

  // ----- reading -----

  predicate Blank(b: Byte) {
    b == SPACE || b == TAB || b == CR || b == VT || b == FF
  }

  function TrimLeft(value: Bytes): Bytes {
    if value != [] && Blank(value[0]) then TrimLeft(value[1..]) else value
  }

  function TrimRight(value: Bytes): Bytes {
    if value != [] && Blank(value[|value| - 1]) then TrimRight(value[..|value| - 1]) else value
  }

  function Without(value: Bytes, b: Byte): Bytes {
    if value == [] then []
    else (if value[0] == b then [] else [value[0]]) + Without(value[1..], b)
  }

  /** A comment starts at the first '#' that follows a blank. */
  predicate CommentAt(value: Bytes, i: nat) {
    1 <= i < |value| && value[i] == HASH && Blank(value[i - 1])
  }

  function CommentStart(value: Bytes, i: nat): (n: nat)
    requires 1 <= i
    ensures n == |value| || (i - 1 <= n && CommentAt(value, n + 1))
    ensures forall j | i <= j <= n :: !CommentAt(value, j)
    decreases |value| - i
  {
    if i >= |value| then |value| else if CommentAt(value, i) then i - 1 else CommentStart(value, i + 1)
  }

  /** The text of a value: the quoted part, or the part before a comment. */
  function Text(value: Bytes): Bytes {
    var v := Without(TrimLeft(value), NUL);
    if v != [] && v[0] == QUOTE then v[1..][..IndexOf(v[1..], QUOTE)]
    else TrimRight(v[..CommentStart(v, 1)])
  }

  function Normalized(value: Bytes, fallback: Bytes): Bytes {
    if Text(value) == [] then fallback else Text(value)
  }

  function Lines(doc: Document): seq<Bytes> {
    doc.rows + [doc.last]
  }

  function FirstLine(lines: seq<Bytes>, key: Bytes): (r: Option<Bytes>)
    ensures r.Some? ==> r.value in lines && HasKey(r.value, key)
    ensures r.None? ==> forall l | l in lines :: !HasKey(l, key)
  {
    if lines == [] then None
    else if HasKey(lines[0], key) then Some(lines[0])
    else FirstLine(lines[1..], key)
  }

  function Value(line: Bytes, key: Bytes): Bytes
    requires HasKey(line, key)
  {
    line[|key| + 1..]
  }

  /** What a reader sees: the first line of the key, normalized. */
  function Read(data: Bytes, key: Bytes, fallback: Bytes): Bytes {
    var line := FirstLine(Lines(Parse(data)), key);
    if line.None? then fallback else Normalized(Value(line.value, key), fallback)
  }
}
