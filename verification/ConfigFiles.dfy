/** The simple reader and rewriter, as loops over one byte snapshot. */
module ConfigFiles {
  import opened Basics
  import opened ConfigText

  // ----- reading -----

  method NormalizeValue(raw: Bytes, fallback: Bytes) returns (r: Bytes)
    ensures r == Normalized(raw, fallback)
  {
    var value := Without(TrimLeft(raw), NUL);
    if value != [] && value[0] == QUOTE {
      value := value[1..];
      var end := IndexOf(value, QUOTE);
      if end < |value| { value := value[..end]; }
      assert value == value[..|value|];
    } else {
      var i := 1;
      ghost var whole := value;
      while i < |value|
        invariant 1 <= i && value == whole
        invariant CommentStart(whole, 1) == CommentStart(whole, i)
      {
        if value[i] == HASH && Blank(value[i - 1]) {
          value := value[..i - 1];
          break;
        }
        i := i + 1;
      }
      assert value == whole[..CommentStart(whole, 1)];
      value := TrimRight(value);
    }
    r := if value == [] then fallback else value;
  }

  /** One physical line off the front of nonempty input. */
  lemma CutLine(data: Bytes)
    requires data != []
    ensures
      var n := IndexOf(data, LF);
      if n == |data| then Parse(data) == Document([], data)
      else
        && Parse(data).rows == [data[..n]] + Parse(data[n + 1..]).rows
        && Parse(data).last == Parse(data[n + 1..]).last
  {
  }

  method GetBytes(data: Bytes, key: Bytes, fallback: Bytes) returns (r: Bytes)
    ensures r == Read(data, key, fallback)
  {
    hide IndexOf, Parse;
    var remaining := data;
    ghost var doc := Parse(data);
    while remaining != []
      invariant FirstLine(Lines(doc), key) == FirstLine(Lines(Parse(remaining)), key)
      decreases |remaining|
    {
      CutLine(remaining);
      var n := IndexOf(remaining, LF);
      var line := remaining[..n];
      assert n == |remaining| ==> line == remaining;
      FirstOff(Parse(remaining), line, key);
      if HasKey(line, key) {
        r := NormalizeValue(line[|key| + 1..], fallback);
        return;
      }
      remaining := if n < |remaining| then remaining[n + 1..] else [];
      EmptyLines(key);
    }
    EmptyLines(key);
    r := fallback;
  }

  lemma EmptyLines(key: Bytes)
    ensures FirstLine(Lines(Parse([])), key) == None
  {
    assert Lines(Parse([])) == [[]];
  }

  lemma FirstOff(doc: Document, line: Bytes, key: Bytes)
    requires Lines(doc)[0] == line
    ensures HasKey(line, key) ==> FirstLine(Lines(doc), key) == Some(line)
    ensures !HasKey(line, key) && doc.rows != [] ==>
      FirstLine(Lines(doc), key) == FirstLine(doc.rows[1..] + [doc.last], key)
    ensures !HasKey(line, key) && doc.rows == [] ==> FirstLine(Lines(doc), key) == None
  {
    if doc.rows != [] { assert Lines(doc)[1..] == doc.rows[1..] + [doc.last]; }
    else { assert Lines(doc)[1..] == []; }
  }

  // ----- rewriting -----

  /** Appends within the limit, or fails. */
  method Append(output: Bytes, piece: Bytes) returns (r: Option<Bytes>)
    requires |output| <= WRITE_LIMIT
    ensures r.Some? <==> |output| + |piece| <= WRITE_LIMIT
    ensures r.Some? ==> r.value == output + piece
  {
    r := if |piece| > WRITE_LIMIT - |output| then None else Some(output + piece);
  }

  /** What the loop has consumed: whole rows, then perhaps an unterminated line. */
  ghost predicate Consumed(data: Bytes, rows: seq<Bytes>, last: Bytes, remaining: Bytes) {
    && Parse(data).rows == rows + Parse(remaining).rows
    && Parse(data).last == last + Parse(remaining).last
    && (last != [] ==> remaining == [])
  }

  ghost function Produced(rows: seq<Bytes>, last: Bytes, key: Bytes, line: Bytes): Bytes {
    Join(ReplacedRows(rows, key, line)) + Replaced(last, key, line)
  }

  method RewriteConfig(data: Bytes, key: Bytes, value: Bytes) returns (r: Option<Bytes>)
    ensures r.Some? <==> |Rewrite(data, key, value)| <= WRITE_LIMIT
    ensures r.Some? ==> r.value == Rewrite(data, key, value)
  {
    hide IndexOf, Parse, Produced, Rewrite, Mentions;
    var replacement := ConfigurationLine(key, Spaced(value));
    var output: Bytes, remaining, found := [], data, false;
    ghost var rows: seq<Bytes>, last: Bytes := [], [];
    Started(data, key, replacement);
    while remaining != []
      invariant Consumed(data, rows, last, remaining)
      invariant output == Produced(rows, last, key, replacement) && |output| <= WRITE_LIMIT
      invariant found <==> Mentions(Document(rows, last), key)
      decreases |remaining|
    {
      var n := IndexOf(remaining, LF);
      var line := remaining[..n];
      ghost var before := output;
      var match_ := HasKey(line, key);
      if match_ { line := replacement; found := true; }
      var appended := Append(output, line);
      if n == |remaining| {
        assert remaining[..n] == remaining;
        TookLast(data, rows, remaining, key, value);
        last := remaining;
        if appended.None? { return None; }
        output, remaining := appended.value, [];
      } else {
        TookRow(data, rows, remaining, n, key, value);
        rows := rows + [remaining[..n]];
        if appended.None? { return None; }
        appended := Append(appended.value, [LF]);
        if appended.None? { return None; }
        output, remaining := appended.value, remaining[n + 1..];
      }
    }
    Ended(data, rows, last, key, value);
    if !found {
      r := Append(output, ConfigurationLine(key, value) + [LF]);
      if r.Some? { assert r.value == output + ConfigurationLine(key, value) + [LF]; }
    } else {
      r := Some(output);
    }
  }

  lemma Started(data: Bytes, key: Bytes, line: Bytes)
    ensures Consumed(data, [], [], data) && Produced([], [], key, line) == []
    ensures !Mentions(Document([], []), key)
  {
  }

  /** Nothing that was produced is ever taken back. */
  lemma ProducedGrows(data: Bytes, rows: seq<Bytes>, last: Bytes, remaining: Bytes, key: Bytes, value: Bytes)
    requires Consumed(data, rows, last, remaining)
    ensures |Produced(rows, last, key, ConfigurationLine(key, Spaced(value)))| <= |Rewrite(data, key, value)|
  {
    assert Parse([]) == Document([], []);
    hide Parse;
    var line, more := ConfigurationLine(key, Spaced(value)), Parse(remaining).rows;
    assert ReplacedRows(rows + more, key, line) == ReplacedRows(rows, key, line) + ReplacedRows(more, key, line);
    JoinMore(ReplacedRows(rows, key, line), ReplacedRows(more, key, line));
  }

  lemma JoinOne(row: Bytes)
    ensures Join([row]) == row + [LF]
  {
    assert [row][1..] == [] && Join([]) == [];
  }

  lemma TookRow(data: Bytes, rows: seq<Bytes>, remaining: Bytes, n: nat, key: Bytes, value: Bytes)
    requires Consumed(data, rows, [], remaining) && n == IndexOf(remaining, LF) < |remaining|
    ensures
      var row, line := remaining[..n], ConfigurationLine(key, Spaced(value));
      && Consumed(data, rows + [row], [], remaining[n + 1..])
      && Produced(rows + [row], [], key, line) == Produced(rows, [], key, line) + Replaced(row, key, line) + [LF]
      && (Mentions(Document(rows + [row], []), key) <==> Mentions(Document(rows, []), key) || HasKey(row, key))
      && |Produced(rows, [], key, line)| + |Replaced(row, key, line)| + 1 <= |Rewrite(data, key, value)|
  {
    hide IndexOf, Parse, Rewrite, Produced, Mentions, Replaced;
    var row, line := remaining[..n], ConfigurationLine(key, Spaced(value));
    CutLine(remaining);
    assert rows + ([row] + Parse(remaining[n + 1..]).rows) == (rows + [row]) + Parse(remaining[n + 1..]).rows;
    ProducedRow(rows, row, key, line);
    ProducedGrows(data, rows + [row], [], remaining[n + 1..], key, value);
  }

  lemma ProducedRow(rows: seq<Bytes>, row: Bytes, key: Bytes, line: Bytes)
    ensures Produced(rows + [row], [], key, line) == Produced(rows, [], key, line) + Replaced(row, key, line) + [LF]
    ensures Mentions(Document(rows + [row], []), key) <==> Mentions(Document(rows, []), key) || HasKey(row, key)
  {
    assert ReplacedRows(rows + [row], key, line) == ReplacedRows(rows, key, line) + [Replaced(row, key, line)];
    JoinMore(ReplacedRows(rows, key, line), [Replaced(row, key, line)]);
    JoinOne(Replaced(row, key, line));
    assert Replaced([], key, line) == [];
  }

  lemma ProducedLast(rows: seq<Bytes>, last: Bytes, key: Bytes, line: Bytes)
    ensures Produced(rows, last, key, line) == Produced(rows, [], key, line) + Replaced(last, key, line)
    ensures Mentions(Document(rows, last), key) <==> Mentions(Document(rows, []), key) || HasKey(last, key)
  {
    var body := Join(ReplacedRows(rows, key, line));
    assert Replaced([], key, line) == [] && body + [] == body;
  }

  lemma TookLast(data: Bytes, rows: seq<Bytes>, remaining: Bytes, key: Bytes, value: Bytes)
    requires Consumed(data, rows, [], remaining) && IndexOf(remaining, LF) == |remaining| > 0
    ensures
      var line := ConfigurationLine(key, Spaced(value));
      && Consumed(data, rows, remaining, [])
      && Produced(rows, remaining, key, line) == Produced(rows, [], key, line) + Replaced(remaining, key, line)
      && (Mentions(Document(rows, remaining), key) <==> Mentions(Document(rows, []), key) || HasKey(remaining, key))
      && |Produced(rows, [], key, line)| + |Replaced(remaining, key, line)| <= |Rewrite(data, key, value)|
  {
    CutLine(remaining);
    assert Parse([]) == Document([], []);
    hide IndexOf, Parse, Rewrite, Produced, Mentions, Replaced;
    ProducedLast(rows, remaining, key, ConfigurationLine(key, Spaced(value)));
    ProducedGrows(data, rows, remaining, [], key, value);
  }

  lemma Ended(data: Bytes, rows: seq<Bytes>, last: Bytes, key: Bytes, value: Bytes)
    requires Consumed(data, rows, last, [])
    ensures
      var line := ConfigurationLine(key, Spaced(value));
      Rewrite(data, key, value) ==
        if Mentions(Document(rows, last), key) then Produced(rows, last, key, line)
        else Produced(rows, last, key, line) + ConfigurationLine(key, value) + [LF]
  {
    assert Parse([]) == Document([], []);
    hide Parse;
    assert Parse(data) == Document(rows, last);
  }
}
