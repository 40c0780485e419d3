/** What reading tells after a rewrite, for the key that was written and for every
    other one. */
module ConfigLaws {
  import opened Basics
  import opened ConfigText

  /** A value that survives on one quoted row. */
  predicate Plain(value: Bytes) {
    LF !in value && NUL !in value && QUOTE !in value
  }

  lemma {:induction false} WithoutNone(value: Bytes, b: Byte)
    requires b !in value
    ensures Without(value, b) == value
  {
    if value != [] { WithoutNone(value[1..], b); }
  }

  /** Quoting is undone by reading. */
  lemma QuotedText(value: Bytes)
    requires Plain(value)
    ensures Text([SPACE, QUOTE] + value + [QUOTE]) == value
  {
    var quoted := [QUOTE] + value + [QUOTE];
    assert ([SPACE, QUOTE] + value + [QUOTE])[1..] == quoted;
    assert TrimLeft(quoted) == quoted;
    WithoutNone(quoted, NUL);
    assert quoted[1..] == value + [QUOTE] + [];
    IndexOfAt(value, QUOTE, []);
    assert quoted[1..][..|value|] == value;
  }

  // ----- what a value reads as -----

  predicate Blanks(value: Bytes) { forall i | 0 <= i < |value| :: Blank(value[i]) }

  /** The first byte that is no blank opens a quote. */
  predicate Opens(value: Bytes) {
    exists n :: 0 <= n < |value| && Blanks(value[..n]) && value[n] == QUOTE
  }

  /** `value[start..end]` neither begins nor ends with a blank and holds no '#' after a blank;
      around it stand only blanks, and after a nonempty text perhaps a '#' comment at `next`. */
  predicate Bare(value: Bytes, start: nat, end: nat, next: nat) {
    && start <= end <= next <= |value|
    && Blanks(value[..start]) && Blanks(value[end..next])
    && (start < end ==> !Blank(value[start]) && !Blank(value[end - 1]))
    && (forall i | start < i < end && value[i] == HASH :: !Blank(value[i - 1]))
    && (next < |value| ==> start < end < next && value[next] == HASH)
  }

  ghost predicate BareText(value: Bytes, text: Bytes) {
    exists start: nat, end: nat, next: nat ::
      start <= end <= |value| && Bare(value, start, end, next) && text == value[start..end]
  }

  lemma {:induction false} TrimLeftAt(value: Bytes) returns (n: nat)
    ensures n <= |value| && TrimLeft(value) == value[n..] && Blanks(value[..n])
    ensures n < |value| ==> !Blank(value[n])
  {
    if value != [] && Blank(value[0]) {
      n := TrimLeftAt(value[1..]);
      assert value[..n + 1] == [value[0]] + value[1..][..n];
      n := n + 1;
    } else {
      n := 0;
    }
  }

  lemma {:induction false} TrimRightAt(value: Bytes) returns (n: nat)
    ensures n <= |value| && TrimRight(value) == value[..n] && Blanks(value[n..])
    ensures n > 0 ==> !Blank(value[n - 1])
  {
    if value != [] && Blank(value[|value| - 1]) {
      var rest := value[..|value| - 1];
      n := TrimRightAt(rest);
      assert value[n..] == rest[n..] + [value[|value| - 1]];
    } else {
      n := |value|;
    }
  }

  lemma BareTrimmed(v: Bytes) returns (end: nat, next: nat)
    requires v != [] ==> !Blank(v[0])
    ensures Bare(v, 0, end, next) && TrimRight(v[..CommentStart(v, 1)]) == v[..end]
  {
    hide TrimRight, CommentStart;
    var c := CommentStart(v, 1);
    end := TrimRightAt(v[..c]);
    assert v[..c][..end] == v[..end];
    assert forall i | end <= i < c :: Blank(v[i]) by {
      forall i | end <= i < c ensures Blank(v[i]) { assert v[..c][end..][i - end] == v[i]; }
    }
    next := if c < |v| then c + 1 else |v|;
    if c < |v| {
      assert CommentAt(v, c + 1) && Blank(v[c]);
      assert end > 0;
    }
    assert forall i | 0 < i < end && v[i] == HASH :: !Blank(v[i - 1]) by {
      forall i | 0 < i < end && v[i] == HASH ensures !Blank(v[i - 1]) { assert !CommentAt(v, i); }
    }
  }

  /** Leading blanks only move the bare text. */
  lemma BareAfter(value: Bytes, n: nat, end: nat, next: nat)
    requires n <= |value| && Blanks(value[..n]) && Bare(value[n..], 0, end, next)
    ensures Bare(value, n, n + end, n + next) && value[n..n + end] == value[n..][..end]
  {
    var v := value[n..];
    assert value[n + end..n + next] == v[end..next];
    forall i | n < i < n + end && value[i] == HASH ensures !Blank(value[i - 1]) {
      assert v[i - n] == HASH && v[i - n - 1] == value[i - 1];
    }
  }

  lemma TextBare(value: Bytes) returns (start: nat, end: nat, next: nat)
    requires NUL !in value && !Opens(value)
    ensures start <= end <= |value| && Bare(value, start, end, next) && Text(value) == value[start..end]
  {
    hide IndexOf, TrimLeft, TrimRight, CommentStart, Bare, Blanks;
    start := TrimLeftAt(value);
    var v := value[start..];
    WithoutNone(v, NUL);
    assert v == [] || v[0] != QUOTE;
    end, next := BareTrimmed(v);
    BareAfter(value, start, end, next);
    end, next := start + end, start + next;
  }

  /** There is only one. */
  lemma BareUnique(value: Bytes, s1: nat, e1: nat, n1: nat, s2: nat, e2: nat, n2: nat)
    requires s1 <= e1 <= |value| && s2 <= e2 <= |value|
    requires Bare(value, s1, e1, n1) && Bare(value, s2, e2, n2)
    ensures value[s1..e1] == value[s2..e2]
  {
    if s2 < e2 { BareInside(value, s1, e1, n1, s2, e2, n2); }
    if s1 < e1 { BareInside(value, s2, e2, n2, s1, e1, n1); }
  }

  /** Neither text reaches beyond the other. */
  lemma BareInside(value: Bytes, s1: nat, e1: nat, n1: nat, s2: nat, e2: nat, n2: nat)
    requires Bare(value, s1, e1, n1) && Bare(value, s2, e2, n2) && s2 < e2
    ensures s1 < e1 && s1 <= s2 && e2 <= e1
  {
    assert forall i | 0 <= i < s1 :: Blank(value[i]) by {
      forall i | 0 <= i < s1 ensures Blank(value[i]) { assert value[..s1][i] == value[i]; }
    }
    assert forall i | e1 <= i < n1 :: Blank(value[i]) by {
      forall i | e1 <= i < n1 ensures Blank(value[i]) { assert value[e1..n1][i - e1] == value[i]; }
    }
    assert s1 <= s2 && !(e1 <= s2 < n1) && !(e1 <= e2 - 1 < n1);
    assert n1 < |value| ==> value[n1] == HASH && Blank(value[n1 - 1]) && !(s2 < n1 < e2);
    assert s2 < n1;
  }

  /** An unquoted value reads as its bare text, and as nothing else. */
  lemma UnquotedText(value: Bytes, text: Bytes)
    requires NUL !in value && !Opens(value)
    ensures Text(value) == text <==> BareText(value, text)
  {
    hide Text, Bare;
    var start, end, next := TextBare(value);
    if BareText(value, text) {
      var s: nat, e: nat, n: nat :|
        s <= e <= |value| && Bare(value, s, e, n) && text == value[s..e];
      BareUnique(value, start, end, next, s, e, n);
    }
  }

  /** A quoted value reads as what stands before the next quote, whatever follows it. */
  lemma QuotedUntil(blanks: Bytes, text: Bytes, rest: Bytes)
    requires Blanks(blanks) && QUOTE !in text && NUL !in text && NUL !in rest
    ensures Text(blanks + [QUOTE] + text + [QUOTE] + rest) == text
    ensures Text(blanks + [QUOTE] + text) == text
  {
    var begun := [QUOTE] + text;
    var closed := begun + [QUOTE] + rest;
    assert blanks + [QUOTE] + text + [QUOTE] + rest == blanks + closed && blanks + [QUOTE] + text == blanks + begun;
    TrimBlanks(blanks, closed);
    TrimBlanks(blanks, begun);
    WithoutNone(closed, NUL);
    WithoutNone(begun, NUL);
    assert closed[1..] == text + [QUOTE] + rest && begun[1..] == text;
    IndexOfAt(text, QUOTE, rest);
    IndexOfNone(text, QUOTE);
    assert closed[1..][..|text|] == text && text[..|text|] == text;
  }

  lemma {:induction false} TrimBlanks(blanks: Bytes, v: Bytes)
    requires Blanks(blanks) && v != [] && !Blank(v[0])
    ensures TrimLeft(blanks + v) == v
  {
    if blanks == [] {
      assert blanks + v == v;
    } else {
      assert (blanks + v)[1..] == blanks[1..] + v;
      TrimBlanks(blanks[1..], v);
    }
  }

  /** Once something visible has been read, a NUL counts for nothing. */
  lemma NulDropped(a: Bytes, b: Bytes)
    requires !Blanks(a)
    ensures Text(a + [NUL] + b) == Text(a + b)
  {
    hide IndexOf, CommentStart, TrimRight;
    TrimLeftMore(a, [NUL] + b);
    TrimLeftMore(a, b);
    WithoutMore(TrimLeft(a), [NUL] + b, NUL);
    WithoutMore(TrimLeft(a), b, NUL);
    assert ([NUL] + b)[1..] == b && Without([NUL] + b, NUL) == Without(b, NUL);
    assert a + [NUL] + b == a + ([NUL] + b);
  }

  lemma {:induction false} TrimLeftMore(a: Bytes, b: Bytes)
    requires !Blanks(a)
    ensures TrimLeft(a + b) == TrimLeft(a) + b
  {
    if Blank(a[0]) {
      assert (a + b)[1..] == a[1..] + b;
      var i :| 0 <= i < |a| && !Blank(a[i]);
      assert a[1..][i - 1] == a[i];
      TrimLeftMore(a[1..], b);
    }
  }

  lemma {:induction false} WithoutMore(a: Bytes, b: Bytes, x: Byte)
    ensures Without(a + b, x) == Without(a, x) + Without(b, x)
  {
    if a == [] {
      assert a + b == b;
    } else {
      assert (a + b)[1..] == a[1..] + b;
      WithoutMore(a[1..], b, x);
    }
  }

  // ----- lines -----

  lemma {:induction false} FirstReplaced(lines: seq<Bytes>, key: Bytes, line: Bytes)
    requires HasKey(line, key)
    ensures FirstLine(ReplacedRows(lines, key, line), key)
         == if exists l | l in lines :: HasKey(l, key) then Some(line) else None
  {
    if lines != [] {
      assert ReplacedRows(lines, key, line)[1..] == ReplacedRows(lines[1..], key, line);
      FirstReplaced(lines[1..], key, line);
      assert lines == [lines[0]] + lines[1..];
    }
  }

  lemma {:induction false} FirstUntouched(lines: seq<Bytes>, key: Bytes, line: Bytes, other: Bytes)
    requires !HasKey(line, other)
    requires forall l | l in lines && HasKey(l, key) :: !HasKey(l, other)
    ensures FirstLine(ReplacedRows(lines, key, line), other) == FirstLine(lines, other)
  {
    if lines != [] {
      assert ReplacedRows(lines, key, line)[1..] == ReplacedRows(lines[1..], key, line);
      FirstUntouched(lines[1..], key, line, other);
    }
  }

  lemma {:induction false} FirstMore(a: seq<Bytes>, b: seq<Bytes>, key: Bytes)
    ensures FirstLine(a + b, key) == if FirstLine(a, key).Some? then FirstLine(a, key) else FirstLine(b, key)
  {
    if a == [] {
      assert a + b == b;
    } else {
      assert (a + b)[1..] == a[1..] + b;
      FirstMore(a[1..], b, key);
    }
  }

  lemma EditedLines(doc: Document, key: Bytes, line: Bytes)
    ensures Mentions(doc, key) <==> exists l | l in Lines(doc) :: HasKey(l, key)
    ensures Mentions(doc, key) ==> Lines(Edited(doc, key, line)) == ReplacedRows(Lines(doc), key, line)
    ensures !Mentions(doc, key) ==> Lines(Edited(doc, key, line)) == doc.rows + [doc.last + line, []]
  {
  }

  /** A line read off the edited document. */
  lemma EditedFirst(doc: Document, key: Bytes, line: Bytes)
    requires HasKey(line, key)
    ensures FirstLine(Lines(Edited(doc, key, line)), key)
         == if Mentions(doc, key) || doc.last == [] then Some(line)
            else if HasKey(doc.last + line, key) then Some(doc.last + line) else None
  {
    EditedLines(doc, key, line);
    FirstReplaced(Lines(doc), key, line);
    if !Mentions(doc, key) {
      FirstMore(doc.rows, [doc.last + line, []], key);
      assert FirstLine(doc.rows, key) == None;
      assert doc.last == [] ==> doc.last + line == line;
      assert [doc.last + line, []][1..] == [[]];
      assert FirstLine([[]], key) == None;
    }
  }

  /** An unterminated line that lacks a colon-free key still lacks it with a row of
      that key appended: the two merge into another line. */
  lemma MergedLine(last: Bytes, key: Bytes, value: Bytes)
    requires COLON !in key && last != [] && !HasKey(last, key)
    ensures !HasKey(last + ConfigurationLine(key, value), key)
  {
    var merged, line := last + ConfigurationLine(key, value), ConfigurationLine(key, value);
    if |key| < |last| {
      assert merged[..|key| + 1] == last[..|key| + 1];
    } else {
      assert merged[|key|] == line[|key| - |last|] == key[|key| - |last|];
    }
  }

  /** Reading a written key gives the value back exactly when there was a row to
      replace or a terminated end to append to. */
  lemma ReadBack(data: Bytes, key: Bytes, value: Bytes, fallback: Bytes)
    requires Plain(value) && Flat(key) && COLON !in key
    ensures
      var doc := Parse(data);
      Read(Rewrite(data, key, value), key, fallback)
        == if value != [] && (doc.last == [] || Mentions(doc, key)) then value else fallback
  {
    var doc, line := Parse(data), ConfigurationLine(key, value);
    RewriteEdits(data, key, value);
    LineHasKey(key, value);
    EditedFirst(doc, key, line);
    QuotedText(value);
    if !Mentions(doc, key) && doc.last != [] { MergedLine(doc.last, key, value); }
  }

  /** With a key that may hold colons, one direction remains. */
  lemma ReadBackAnyKey(data: Bytes, key: Bytes, value: Bytes, fallback: Bytes)
    requires Plain(value) && Flat(key)
    requires Parse(data).last == [] || Mentions(Parse(data), key)
    ensures Read(Rewrite(data, key, value), key, fallback) == if value == [] then fallback else value
  {
    var doc, line := Parse(data), ConfigurationLine(key, value);
    RewriteEdits(data, key, value);
    LineHasKey(key, value);
    EditedFirst(doc, key, line);
    QuotedText(value);
  }

  /** The two keys can share a line only when one, with its colon, begins the other. */
  lemma KeysApart(line: Bytes, key: Bytes, other: Bytes)
    requires COLON !in other && other != key && !(other + [COLON] <= key)
    requires HasKey(line, key)
    ensures !HasKey(line, other)
  {
    if |other| < |key| {
      assert line[..|other| + 1] == key[..|other| + 1];
    } else if |other| == |key| {
      assert line[..|key|] == key;
    } else if |other| < |line| {
      assert line[|key|] == COLON && other[|key|] in other;
    }
  }

  /** Every other colon-free key reads as before, unless it begins the written key
      up to a colon. */
  lemma OtherKeys(data: Bytes, key: Bytes, value: Bytes, other: Bytes, fallback: Bytes)
    requires Flat(key) && Flat(value) && COLON !in other && other != key
    requires Parse(data).last == [] && !(other + [COLON] <= key)
    ensures Read(Rewrite(data, key, value), other, fallback) == Read(data, other, fallback)
  {
    hide Parse, IndexOf, Rewrite, Edited, Text, FirstLine;
    RewriteEdits(data, key, value);
    LineHasKey(key, value);
    UntouchedFirst(Parse(data), key, ConfigurationLine(key, value), other);
  }

  lemma UntouchedFirst(doc: Document, key: Bytes, line: Bytes, other: Bytes)
    requires doc.last == [] && HasKey(line, key) && COLON !in other && other != key && !(other + [COLON] <= key)
    ensures FirstLine(Lines(Edited(doc, key, line)), other) == FirstLine(Lines(doc), other)
  {
    hide HasKey;
    EditedLines(doc, key, line);
    KeysApart(line, key, other);
    forall l | l in Lines(doc) && HasKey(l, key) ensures !HasKey(l, other) { KeysApart(l, key, other); }
    if Mentions(doc, key) {
      FirstUntouched(Lines(doc), key, line, other);
    } else {
      FirstMore(doc.rows, [doc.last + line, []], other);
      FirstMore(doc.rows, [doc.last], other);
      assert doc.last + line == line;
      NoLine(other);
      assert [line, []][1..] == [[]] && [doc.last] == [[]];
    }
  }

  /** In the excluded family the appended row answers for both keys. */
  lemma SharedRow(data: Bytes, key: Bytes, value: Bytes, other: Bytes, fallback: Bytes)
    requires Flat(key) && Flat(value) && other + [COLON] <= key
    requires Parse(data).last == [] && FirstLine(Lines(Parse(data)), other).None?
    ensures Read(data, other, fallback) == fallback
    ensures Read(Rewrite(data, key, value), other, fallback)
         == Normalized(key[|other| + 1..] + [COLON, SPACE, QUOTE] + value + [QUOTE], fallback)
  {
    hide Parse, IndexOf, Rewrite, Edited, Text, FirstLine;
    var doc, line := Parse(data), ConfigurationLine(key, value);
    RewriteEdits(data, key, value);
    LineHasKey(key, value);
    SharedPrefix(line, key, other);
    forall l | l in Lines(doc) ensures !HasKey(l, key) {
      if HasKey(l, key) { SharedPrefix(l, key, other); }
    }
    AppendedFirst(doc, key, line, other);
    SharedValue(key, value, |other| + 1);
  }

  lemma SharedValue(key: Bytes, value: Bytes, n: nat)
    requires n <= |key|
    ensures n <= |ConfigurationLine(key, value)|
    ensures ConfigurationLine(key, value)[n..] == key[n..] + [COLON, SPACE, QUOTE] + value + [QUOTE]
  {
    var rest := [COLON, SPACE, QUOTE] + value + [QUOTE];
    assert ConfigurationLine(key, value) == key + rest;
    assert (key + rest)[n..] == key[n..] + rest;
    assert key[n..] + [COLON, SPACE, QUOTE] + value + [QUOTE] == key[n..] + rest;
  }

  lemma AppendedFirst(doc: Document, key: Bytes, line: Bytes, other: Bytes)
    requires doc.last == [] && HasKey(line, other) && FirstLine(Lines(doc), other).None?
    requires forall l | l in Lines(doc) :: !HasKey(l, key)
    ensures FirstLine(Lines(Edited(doc, key, line)), other) == Some(line)
  {
    EditedLines(doc, key, line);
    FirstMore(doc.rows, [doc.last], other);
    FirstMore(doc.rows, [doc.last + line, []], other);
    assert doc.last + line == line;
  }

  lemma SharedPrefix(line: Bytes, key: Bytes, other: Bytes)
    requires HasKey(line, key) && other + [COLON] <= key
    ensures HasKey(line, other)
  {
    assert line[..|other| + 1] == key[..|other| + 1];
  }

  lemma {:induction false} FirstShared(lines: seq<Bytes>, key: Bytes, line: Bytes, other: Bytes)
    requires HasKey(line, other) && forall l | HasKey(l, key) :: HasKey(l, other)
    ensures
      var first := FirstLine(lines, other);
      FirstLine(ReplacedRows(lines, key, line), other)
        == if first.Some? && HasKey(first.value, key) then Some(line) else first
  {
    if lines != [] {
      assert ReplacedRows(lines, key, line)[1..] == ReplacedRows(lines[1..], key, line);
      FirstShared(lines[1..], key, line, other);
    }
  }

  /** The written row answers for the other key: that key, up to a colon, begins the written
      one, and its first row was absent or was itself a row of the written key. */
  predicate Answers(data: Bytes, key: Bytes, other: Bytes) {
    var first := FirstLine(Lines(Parse(data)), other);
    other + [COLON] <= key && (first.None? || HasKey(first.value, key))
  }

  /** What the other key then reads. */
  function SharedPart(key: Bytes, value: Bytes, other: Bytes): Bytes
    requires |other| < |key|
  {
    key[|other| + 1..] + [COLON, SPACE, QUOTE] + value + [QUOTE]
  }

  lemma SharedFirst(doc: Document, key: Bytes, line: Bytes, other: Bytes)
    requires doc.last == [] && HasKey(line, key) && HasKey(line, other) && other + [COLON] <= key
    ensures
      var first := FirstLine(Lines(doc), other);
      FirstLine(Lines(Edited(doc, key, line)), other)
        == if first.None? || HasKey(first.value, key) then Some(line) else first
  {
    forall l | HasKey(l, key) ensures HasKey(l, other) { SharedPrefix(l, key, other); }
    EditedLines(doc, key, line);
    if Mentions(doc, key) {
      FirstShared(Lines(doc), key, line, other);
    } else {
      FirstMore(doc.rows, [doc.last], other);
      FirstMore(doc.rows, [doc.last + line, []], other);
      assert doc.last + line == line;
    }
  }

  /** What any other colon-free key reads after a rewrite of terminated data, exactly. */
  lemma OtherKeysExact(data: Bytes, key: Bytes, value: Bytes, other: Bytes, fallback: Bytes)
    requires Flat(key) && Flat(value) && COLON !in other && other != key && Parse(data).last == []
    ensures Read(Rewrite(data, key, value), other, fallback)
         == if Answers(data, key, other) then Normalized(SharedPart(key, value, other), fallback)
            else Read(data, other, fallback)
  {
    if other + [COLON] <= key {
      hide Parse, IndexOf, Rewrite, Edited, Text, FirstLine;
      var doc, line := Parse(data), ConfigurationLine(key, value);
      RewriteEdits(data, key, value);
      LineHasKey(key, value);
      SharedPrefix(line, key, other);
      SharedFirst(doc, key, line, other);
      SharedValue(key, value, |other| + 1);
    } else {
      OtherKeys(data, key, value, other, fallback);
    }
  }

  /** The text of the key's first row; empty without one. */
  function Shown(data: Bytes, key: Bytes): Bytes {
    var first := FirstLine(Lines(Parse(data)), key);
    if first.None? then [] else Text(Value(first.value, key))
  }

  /** The other key reads as before, under every fallback, exactly when the written row does
      not answer for it or happens to show the same text. */
  lemma OtherKeysUnchanged(data: Bytes, key: Bytes, value: Bytes, other: Bytes)
    requires Flat(key) && Flat(value) && COLON !in other && other != key && Parse(data).last == []
    ensures
      (forall fallback :: Read(Rewrite(data, key, value), other, fallback) == Read(data, other, fallback))
      <==> (Answers(data, key, other) ==> Text(SharedPart(key, value, other)) == Shown(data, other))
  {
    hide Parse, Rewrite, Text, FirstLine, SharedPart;
    forall fallback
      ensures Read(Rewrite(data, key, value), other, fallback)
           == if Answers(data, key, other) then Normalized(SharedPart(key, value, other), fallback)
              else Read(data, other, fallback)
    {
      OtherKeysExact(data, key, value, other, fallback);
    }
    var empty: Bytes := [];
    assert Read(Rewrite(data, key, value), other, empty) == Read(data, other, empty)
      <==> (Answers(data, key, other) ==> Text(SharedPart(key, value, other)) == Shown(data, other));
  }

  /** Writing `a:b` makes `a` readable in an empty file. */
  lemma OtherKeyChanges()
    ensures
      var a, key: Bytes, none: Bytes := [97], [97, COLON, 98], [];
      && COLON !in a && a != key
      && Read([], a, none) == none
      && Read(Rewrite([], key, [99]), a, none) != none
  {
    hide Rewrite, Edited, Text, FirstLine;
    var a: Bytes, key: Bytes, value: Bytes := [97], [97, COLON, 98], [99];
    assert Lines(Parse([])) == [[]];
    assert FirstLine([[]], a) == None by { NoLine(a); }
    SharedRow([], key, value, a, []);
    var v: Bytes := [98, COLON, SPACE, QUOTE, 99, QUOTE];
    assert key[2..] + [COLON, SPACE, QUOTE] + value + [QUOTE] == v;
    PlainText(v);
  }

  lemma NoLine(key: Bytes)
    ensures FirstLine([[]], key) == None
  {
  }

  lemma PlainText(v: Bytes)
    requires v != [] && NUL !in v && HASH !in v && v[0] != QUOTE && !Blank(v[0]) && !Blank(v[|v| - 1])
    ensures Text(v) == v
  {
    WithoutNone(v, NUL);
    assert CommentStart(v, 1) == |v|;
    assert v[..|v|] == v;
  }
}
