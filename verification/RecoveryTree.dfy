/** Comparing a saved directory tree with the trie of its manifest's paths. */
module RecoveryTree {
  import opened Basics
  import opened PublicationRecords

  type Name = seq<char>

  const DEPTH_LIMIT := 4
  const ENTRY_LIMIT := 32
  const MANIFEST := "manifest.json"

  datatype Class = Clean | Incomplete | Unsafe | LimitExceeded | AssessmentError

  function Priority(c: Class): nat {
    match c
    case Clean => 0
    case Incomplete => 1
    case Unsafe => 2
    case LimitExceeded => 3
    case AssessmentError => 4
  }

  function Merge(current: Class, next: Class): Class {
    if Priority(next) > Priority(current) then next else current
  }

  /** The manifest's paths; a leaf carries what the saved file must be. */
  datatype Trie = Trie(children: map<Name, Trie>, reference: Option<Observed>)
  datatype Observed = Observed(digest: Digest, bytes: nat)

  /** What observing one entry yields. `stat` says whether its name can be looked up,
      `opening` what opening it as the expected kind finds, `listing` what reading a
      directory finds, `safe` whether its metadata is acceptable. */
  datatype Entry = Entry(name: Name, stat: bool, safe: bool, opening: Class, body: Body)
  datatype Body = Contents(data: Bytes) | Folder(listing: Class, entries: seq<Entry>) | Special

  // ----- what one entry contributes -----

  function UnknownClass(e: Entry): Class {
    if e.safe && !e.body.Special? then Incomplete else Unsafe
  }

  /** An entry that must be the referenced file. */
  function FileClass(e: Entry, reference: Observed): Class {
    if e.opening != Clean then e.opening
    else if !e.body.Contents? || !e.safe then Unsafe
    else if |e.body.data| > ASSET_LIMIT then Unsafe
    else if Observed(Sha256(e.body.data), |e.body.data|) != reference then Incomplete
    else Clean
  }

  /** An entry that must be a directory, before it is descended into. */
  function FolderClass(e: Entry): Class {
    if e.opening != Clean then e.opening
    else if !e.body.Folder? || !e.safe then Unsafe
    else e.body.listing
  }

  predicate Skipped(e: Entry, depth: nat) {
    depth == 0 && e.name == MANIFEST
  }

  predicate Missing(node: Trie, entries: seq<Entry>, depth: nat) {
    exists n | n in node.children :: forall e | e in entries :: Skipped(e, depth) || e.name != n
  }

  // ----- the findings, whatever order and however many entries -----

  function EntryWorst(node: Trie, e: Entry, depth: nat): Class
    decreases e, 1
  {
    if Skipped(e, depth) then Clean
    else if !e.stat then AssessmentError
    else if e.name !in node.children then UnknownClass(e)
    else if depth + 1 > DEPTH_LIMIT then LimitExceeded
    else
      var child := node.children[e.name];
      if child.reference.Some? then FileClass(e, child.reference.value)
      else if FolderClass(e) != Clean then FolderClass(e)
      else
        Merge(
          ListWorst(child, e.body.entries, depth + 1),
          if Missing(child, e.body.entries, depth + 1) then Incomplete else Clean)
  }

  function ListWorst(node: Trie, entries: seq<Entry>, depth: nat): Class
    decreases entries, 0
  {
    if entries == [] then Clean
    else Merge(ListWorst(node, entries[..|entries| - 1], depth), EntryWorst(node, entries[|entries| - 1], depth))
  }

  /** The highest-priority finding in the whole tree. */
  function Worst(node: Trie, entries: seq<Entry>, depth: nat): Class {
    Merge(ListWorst(node, entries, depth), if Missing(node, entries, depth) then Incomplete else Clean)
  }

  function EntrySize(node: Trie, e: Entry, depth: nat): nat
    decreases e, 1
  {
    if Skipped(e, depth) || !e.stat || e.name !in node.children || depth + 1 > DEPTH_LIMIT
       || node.children[e.name].reference.Some? || FolderClass(e) != Clean then 0
    else |e.body.entries| + ListSize(node.children[e.name], e.body.entries, depth + 1)
  }

  /** How many entries are listed below. */
  function ListSize(node: Trie, entries: seq<Entry>, depth: nat): nat
    decreases entries, 0
  {
    if entries == [] then 0
    else ListSize(node, entries[..|entries| - 1], depth) + EntrySize(node, entries[|entries| - 1], depth)
  }

  // ----- what a clean tree is -----

  /** The entry is exactly what the manifest says. */
  predicate EntryMatches(node: Trie, e: Entry, depth: nat)
    decreases e, 1
  {
    (depth == 0 && e.name == MANIFEST) ||
    (&& e.stat && e.name in node.children && depth + 1 <= DEPTH_LIMIT && e.opening == Clean && e.safe
     && var child := node.children[e.name];
        if child.reference.Some? then
          && e.body.Contents? && |e.body.data| <= ASSET_LIMIT
          && Observed(Sha256(e.body.data), |e.body.data|) == child.reference.value
        else
          e.body.Folder? && e.body.listing == Clean && Matches(child, e.body.entries, depth + 1))
  }

  /** No extra, missing, unsafe or altered entry. */
  predicate Matches(node: Trie, entries: seq<Entry>, depth: nat)
    decreases entries, 0
  {
    && (forall i | 0 <= i < |entries| :: EntryMatches(node, entries[i], depth))
    && forall n | n in node.children ::
         exists i :: 0 <= i < |entries| && entries[i].name == n && (depth > 0 || n != MANIFEST)
  }

  lemma {:induction false} WorstMatches(node: Trie, entries: seq<Entry>, depth: nat)
    ensures Worst(node, entries, depth) == Clean <==> Matches(node, entries, depth)
    decreases entries, 2
  {
    forall i | 0 <= i < |entries|
      ensures EntryWorst(node, entries[i], depth) == Clean <==> EntryMatches(node, entries[i], depth)
    {
      EntryWorstMatches(node, entries[i], depth);
    }
    ListWorstClean(node, entries, depth);
  }

  lemma {:induction false} ListWorstClean(node: Trie, entries: seq<Entry>, depth: nat)
    ensures ListWorst(node, entries, depth) == Clean <==>
      forall i | 0 <= i < |entries| :: EntryWorst(node, entries[i], depth) == Clean
    decreases |entries|
  {
    if entries != [] {
      var rest := entries[..|entries| - 1];
      ListWorstClean(node, rest, depth);
      assert forall i | 0 <= i < |rest| :: rest[i] == entries[i];
    }
  }

  lemma {:induction false} EntryWorstMatches(node: Trie, e: Entry, depth: nat)
    ensures EntryWorst(node, e, depth) == Clean <==> EntryMatches(node, e, depth)
    decreases e, 1
  {
    if !Skipped(e, depth) && e.stat && e.name in node.children && depth + 1 <= DEPTH_LIMIT
       && node.children[e.name].reference.None? && FolderClass(e) == Clean {
      WorstMatches(node.children[e.name], e.body.entries, depth + 1);
    }
  }

  // ----- what separates the findings -----

  /** The entry was observed, is of an acceptable kind where it stands, and is within the limits;
      its contents may differ. */
  predicate EntryTame(node: Trie, e: Entry, depth: nat)
    decreases e, 1
  {
    (depth == 0 && e.name == MANIFEST) ||
    (e.stat &&
     if e.name !in node.children then e.safe && !e.body.Special?
     else
       && depth + 1 <= DEPTH_LIMIT && e.opening in {Clean, Incomplete}
       && (e.opening == Clean ==>
             && e.safe
             && var child := node.children[e.name];
                if child.reference.Some? then e.body.Contents? && |e.body.data| <= ASSET_LIMIT
                else
                  && e.body.Folder? && e.body.listing in {Clean, Incomplete}
                  && (e.body.listing == Clean ==> Tame(child, e.body.entries, depth + 1))))
  }

  predicate Tame(node: Trie, entries: seq<Entry>, depth: nat)
    decreases entries, 0
  {
    forall i | 0 <= i < |entries| :: EntryTame(node, entries[i], depth)
  }

  /** A tree is at most incomplete exactly when nothing in it is unsafe, over a limit or
      unobservable: a changed, an unknown or a missing file alone is no more than that. */
  lemma {:induction false} WorstTame(node: Trie, entries: seq<Entry>, depth: nat)
    ensures Worst(node, entries, depth) in {Clean, Incomplete} <==> Tame(node, entries, depth)
    decreases entries, 2
  {
    forall i | 0 <= i < |entries|
      ensures EntryWorst(node, entries[i], depth) in {Clean, Incomplete} <==> EntryTame(node, entries[i], depth)
    {
      EntryWorstTame(node, entries[i], depth);
    }
    ListWorstTame(node, entries, depth);
  }

  lemma {:induction false} ListWorstTame(node: Trie, entries: seq<Entry>, depth: nat)
    ensures ListWorst(node, entries, depth) in {Clean, Incomplete} <==>
      forall i | 0 <= i < |entries| :: EntryWorst(node, entries[i], depth) in {Clean, Incomplete}
    decreases |entries|
  {
    if entries != [] {
      var rest := entries[..|entries| - 1];
      ListWorstTame(node, rest, depth);
      assert forall i | 0 <= i < |rest| :: rest[i] == entries[i];
    }
  }

  lemma {:induction false} EntryWorstTame(node: Trie, e: Entry, depth: nat)
    ensures EntryWorst(node, e, depth) in {Clean, Incomplete} <==> EntryTame(node, e, depth)
    decreases e, 1
  {
    if !Skipped(e, depth) && e.stat && e.name in node.children && depth + 1 <= DEPTH_LIMIT
       && node.children[e.name].reference.None? && FolderClass(e) == Clean {
      WorstTame(node.children[e.name], e.body.entries, depth + 1);
    }
  }

  /** The two upper ends of the order: errors alone, or limits with them. */
  predicate Upper(classes: set<Class>) {
    classes == {AssessmentError} || classes == {LimitExceeded, AssessmentError}
  }

  /** No observation on the way ended in one of these classes. */
  predicate EntrySpared(node: Trie, e: Entry, depth: nat, classes: set<Class>)
    decreases e, 1
  {
    (depth == 0 && e.name == MANIFEST) ||
    (&& e.stat
     && (e.name in node.children ==>
           if depth + 1 > DEPTH_LIMIT then LimitExceeded !in classes
           else
             && e.opening !in classes
             && (node.children[e.name].reference.None? && e.opening == Clean && e.safe && e.body.Folder? ==>
                   && e.body.listing !in classes
                   && (e.body.listing == Clean ==>
                         Spared(node.children[e.name], e.body.entries, depth + 1, classes)))))
  }

  predicate Spared(node: Trie, entries: seq<Entry>, depth: nat, classes: set<Class>)
    decreases entries, 0
  {
    forall i | 0 <= i < |entries| :: EntrySpared(node, entries[i], depth, classes)
  }

  /** An error outranks a limit and a limit everything else; each is reported only of an
      observation that ended in it. */
  lemma {:induction false} WorstSpared(node: Trie, entries: seq<Entry>, depth: nat, classes: set<Class>)
    requires Upper(classes)
    ensures Worst(node, entries, depth) !in classes <==> Spared(node, entries, depth, classes)
    decreases entries, 2
  {
    forall i | 0 <= i < |entries|
      ensures EntryWorst(node, entries[i], depth) !in classes <==> EntrySpared(node, entries[i], depth, classes)
    {
      EntryWorstSpared(node, entries[i], depth, classes);
    }
    ListWorstSpared(node, entries, depth, classes);
  }

  lemma {:induction false} ListWorstSpared(node: Trie, entries: seq<Entry>, depth: nat, classes: set<Class>)
    requires Upper(classes)
    ensures ListWorst(node, entries, depth) !in classes <==>
      forall i | 0 <= i < |entries| :: EntryWorst(node, entries[i], depth) !in classes
    decreases |entries|
  {
    if entries != [] {
      var rest := entries[..|entries| - 1];
      ListWorstSpared(node, rest, depth, classes);
      assert forall i | 0 <= i < |rest| :: rest[i] == entries[i];
    }
  }

  lemma {:induction false} EntryWorstSpared(node: Trie, e: Entry, depth: nat, classes: set<Class>)
    requires Upper(classes)
    ensures EntryWorst(node, e, depth) !in classes <==> EntrySpared(node, e, depth, classes)
    decreases e, 1
  {
    if !Skipped(e, depth) && e.stat && e.name in node.children && depth + 1 <= DEPTH_LIMIT
       && node.children[e.name].reference.None? && FolderClass(e) == Clean {
      WorstSpared(node.children[e.name], e.body.entries, depth + 1, classes);
    }
  }

  // ----- the walk -----

  /** The manifest needs no directory below the depth limit. */
  predicate Shallow(node: Trie, depth: nat)
    decreases if depth < DEPTH_LIMIT then DEPTH_LIMIT - depth else 0
  {
    forall n | n in node.children ::
      depth < DEPTH_LIMIT && (node.children[n].reference.Some? || Shallow(node.children[n], depth + 1))
  }

  /** What a walk reports of findings that are worth `worst` and entries that number
      `size`: the worst finding while the shared total stays within its limit, a limit
      or an error otherwise. Only a depth cut can hide an observation error. */
  predicate Reports(class_: Class, total': nat, worst: Class, size: nat, total: nat, shallow: bool) {
    && total <= total' <= ENTRY_LIMIT && total' <= total + size
    && (total + size <= ENTRY_LIMIT && (shallow || Priority(worst) < 3) ==> class_ == worst)
    && (total + size > ENTRY_LIMIT || Priority(worst) >= 3 ==> Priority(class_) >= 3)
    && (Priority(class_) < 3 ==> total' == total + size)
    && (class_ == AssessmentError ==> worst == AssessmentError)
  }

  method Walk(node: Trie, entries: seq<Entry>, depth: nat, total: nat) returns (class_: Class, total': nat)
    requires total <= ENTRY_LIMIT
    ensures Reports(
      class_, total', Worst(node, entries, depth), ListSize(node, entries, depth), total, Shallow(node, depth))
    decreases entries
  {
    hide Missing, EntryWorst, EntrySize, ListWorst, ListSize, Shallow, Reports, Known, UnknownClass;
    var seen: set<Name> := {};
    class_, total' := Clean, total;
    NothingYet(node, entries, depth, total);
    for i := 0 to |entries|
      invariant total' <= ENTRY_LIMIT
      invariant Reports(
        class_, total', ListWorst(node, entries[..i], depth), ListSize(node, entries[..i], depth), total,
        Shallow(node, depth))
      invariant seen == Known(node, entries[..i], depth)
    {
      var e := entries[i];
      ListOn(node, entries, depth, i);
      KnownOn(node, entries, depth, i);
      if Skipped(e, depth) {
        SkippedReports(node, e, depth);
        continue;
      }
      var known := e.name in node.children;
      if !e.stat || (known && depth + 1 > DEPTH_LIMIT) {
        CutReports(node, entries, depth, i, class_, total', total);
        return if e.stat then LimitExceeded else AssessmentError, total';
      }
      if known { seen := seen + {e.name}; }
      var found, after := Visit(node, e, depth, total');
      ReportsMore(class_, total', ListWorst(node, entries[..i], depth), ListSize(node, entries[..i], depth), total,
                  found, after, EntryWorst(node, e, depth), EntrySize(node, e, depth), Shallow(node, depth));
      class_, total' := Merge(class_, found), after;
    }
    assert entries[..|entries|] == entries;
    KnownAll(node, entries, depth);
    var absent := if exists n :: n in node.children && n !in seen then Incomplete else Clean;
    ReportsPlain(
      class_, total', ListWorst(node, entries, depth), ListSize(node, entries, depth), total, absent,
      Shallow(node, depth));
    class_ := Merge(class_, absent);
  }

  lemma NothingYet(node: Trie, entries: seq<Entry>, depth: nat, total: nat)
    requires total <= ENTRY_LIMIT
    ensures Reports(
      Clean, total, ListWorst(node, entries[..0], depth), ListSize(node, entries[..0], depth), total,
      Shallow(node, depth))
    ensures Known(node, entries[..0], depth) == {}
  {
  }

  lemma SkippedReports(node: Trie, e: Entry, depth: nat)
    requires Skipped(e, depth)
    ensures EntryWorst(node, e, depth) == Clean && EntrySize(node, e, depth) == 0
  {
  }

  lemma ReportsPlain(c: Class, t: nat, w: Class, s: nat, total: nat, more: Class, shallow: bool)
    requires Reports(c, t, w, s, total, shallow)
    ensures t <= ENTRY_LIMIT && Reports(Merge(c, more), t, Merge(w, more), s, total, shallow)
  {
  }

  /** A failed lookup, and a known entry below the depth limit, end the walk at once. */
  lemma CutReports(node: Trie, entries: seq<Entry>, depth: nat, i: nat, c: Class, t: nat, total: nat)
    requires i < |entries| && !Skipped(entries[i], depth)
    requires !entries[i].stat || (entries[i].name in node.children && depth + 1 > DEPTH_LIMIT)
    requires Reports(
      c, t, ListWorst(node, entries[..i], depth), ListSize(node, entries[..i], depth), total, Shallow(node, depth))
    ensures Reports(if entries[i].stat then LimitExceeded else AssessmentError, t,
                    Worst(node, entries, depth), ListSize(node, entries, depth), total, Shallow(node, depth))
  {
    hide Missing, Known, UnknownClass, ListWorst, ListSize;
    EntryFacts(node, entries[i], depth);
    ListOn(node, entries, depth, i);
    ListLater(node, entries, depth, i + 1);
  }

  /** One entry: what it contributes, below it included. */
  method Visit(node: Trie, e: Entry, depth: nat, total: nat) returns (class_: Class, total': nat)
    requires total <= ENTRY_LIMIT && !Skipped(e, depth) && e.stat
    requires e.name in node.children ==> depth + 1 <= DEPTH_LIMIT
    ensures total' <= ENTRY_LIMIT
    ensures Reports(class_, total', EntryWorst(node, e, depth), EntrySize(node, e, depth), total, Shallow(node, depth))
    decreases e
  {
    hide EntryWorst, EntrySize, Shallow, FileClass, FolderClass, Worst, ListSize, UnknownClass;
    EntryFacts(node, e, depth);
    if e.name !in node.children { return UnknownClass(e), total; }
    var child := node.children[e.name];
    if child.reference.Some? { return FileClass(e, child.reference.value), total; }
    if FolderClass(e) != Clean { return FolderClass(e), total; }
    if |e.body.entries| > ENTRY_LIMIT - total { return LimitExceeded, total; }
    class_, total' := Walk(child, e.body.entries, depth + 1, total + |e.body.entries|);
  }

  /** Findings and sizes add up. */
  lemma ReportsMore(
    c1: Class, t1: nat, w1: Class, s1: nat, total: nat, c2: Class, t2: nat, w2: Class, s2: nat, shallow: bool)
    requires Reports(c1, t1, w1, s1, total, shallow) && Reports(c2, t2, w2, s2, t1, shallow)
    ensures Reports(Merge(c1, c2), t2, Merge(w1, w2), s1 + s2, total, shallow)
  {
  }

  function Known(node: Trie, entries: seq<Entry>, depth: nat): set<Name> {
    set i | 0 <= i < |entries| && !Skipped(entries[i], depth) && entries[i].name in node.children :: entries[i].name
  }

  lemma KnownOn(node: Trie, entries: seq<Entry>, depth: nat, i: nat)
    requires i < |entries|
    ensures Known(node, entries[..i + 1], depth) == Known(node, entries[..i], depth) +
      (if !Skipped(entries[i], depth) && entries[i].name in node.children then {entries[i].name} else {})
  {
    assert entries[..i + 1] == entries[..i] + [entries[i]];
  }

  lemma KnownAll(node: Trie, entries: seq<Entry>, depth: nat)
    ensures Missing(node, entries, depth) <==> exists n :: n in node.children && n !in Known(node, entries, depth)
  {
    if Missing(node, entries, depth) {
      var n :| n in node.children && forall e | e in entries :: Skipped(e, depth) || e.name != n;
      assert n !in Known(node, entries, depth);
    }
    forall n | n in node.children && n !in Known(node, entries, depth) ensures Missing(node, entries, depth) {
      forall e | e in entries ensures Skipped(e, depth) || e.name != n {
        var i :| 0 <= i < |entries| && entries[i] == e;
      }
    }
  }

  lemma ListOn(node: Trie, entries: seq<Entry>, depth: nat, i: nat)
    requires i < |entries|
    ensures ListWorst(node, entries[..i + 1], depth)
         == Merge(ListWorst(node, entries[..i], depth), EntryWorst(node, entries[i], depth))
    ensures ListSize(node, entries[..i + 1], depth)
         == ListSize(node, entries[..i], depth) + EntrySize(node, entries[i], depth)
  {
    assert entries[..i + 1][..i] == entries[..i];
  }

  /** Later entries only add to what was found. */
  lemma {:induction false} ListLater(node: Trie, entries: seq<Entry>, depth: nat, i: nat)
    requires i <= |entries|
    ensures Priority(ListWorst(node, entries[..i], depth)) <= Priority(ListWorst(node, entries, depth))
    ensures ListSize(node, entries[..i], depth) <= ListSize(node, entries, depth)
    decreases |entries| - i
  {
    if i < |entries| {
      ListOn(node, entries, depth, i);
      ListLater(node, entries, depth, i + 1);
    } else {
      assert entries[..i] == entries;
    }
  }

  /** How one entry's class and size are made up. */
  lemma EntryFacts(node: Trie, e: Entry, depth: nat)
    ensures Skipped(e, depth) ==> EntryWorst(node, e, depth) == Clean && EntrySize(node, e, depth) == 0
    ensures !Skipped(e, depth) && !e.stat ==> EntryWorst(node, e, depth) == AssessmentError
    ensures !Skipped(e, depth) && e.stat && e.name !in node.children ==>
      EntryWorst(node, e, depth) == UnknownClass(e) && EntrySize(node, e, depth) == 0
    ensures !Skipped(e, depth) && e.stat && e.name in node.children && depth + 1 > DEPTH_LIMIT ==>
      EntryWorst(node, e, depth) == LimitExceeded && !Shallow(node, depth)
    ensures !Skipped(e, depth) && e.stat && e.name in node.children && depth + 1 <= DEPTH_LIMIT ==>
      Descended(node, node.children[e.name], e, depth)
  {
  }

  predicate Descended(node: Trie, child: Trie, e: Entry, depth: nat) {
    if child.reference.Some? then
      EntryWorst(node, e, depth) == FileClass(e, child.reference.value) && EntrySize(node, e, depth) == 0
    else if FolderClass(e) != Clean then
      EntryWorst(node, e, depth) == FolderClass(e) && EntrySize(node, e, depth) == 0
    else
      && e.body.Folder?
      && EntryWorst(node, e, depth) == Worst(child, e.body.entries, depth + 1)
      && EntrySize(node, e, depth) == |e.body.entries| + ListSize(child, e.body.entries, depth + 1)
      && (Shallow(node, depth) ==> Shallow(child, depth + 1))
  }

  /** A clean verdict means exactly the manifest's tree, within its limits. */
  lemma CleanExactly(node: Trie, entries: seq<Entry>, depth: nat, total: nat, class_: Class, total': nat)
    requires Reports(
      class_, total', Worst(node, entries, depth), ListSize(node, entries, depth), total, Shallow(node, depth))
    ensures class_ == Clean <==> Matches(node, entries, depth) && total + ListSize(node, entries, depth) <= ENTRY_LIMIT
  {
    WorstMatches(node, entries, depth);
  }

  // ----- the trie of a manifest -----

  datatype Asset = Asset(parts: seq<Name>, reference: Observed)

  function Insert(node: Trie, parts: seq<Name>, reference: Observed): Trie
    decreases |parts|
  {
    if parts == [] then node.(reference := Some(reference))
    else
      var child := if parts[0] in node.children then node.children[parts[0]] else Trie(map[], None);
      node.(children := node.children[parts[0] := Insert(child, parts[1..], reference)])
  }

  /** What the trie says about the file at a path. */
  function Leaf(node: Trie, parts: seq<Name>): Option<Observed>
    decreases |parts|
  {
    if parts == [] then node.reference
    else if parts[0] in node.children then Leaf(node.children[parts[0]], parts[1..])
    else None
  }

  lemma {:induction false} NoLeaf(parts: seq<Name>)
    ensures Leaf(Trie(map[], None), parts) == None
  {
  }

  lemma {:induction false} LeafInserted(node: Trie, parts: seq<Name>, reference: Observed, other: seq<Name>)
    ensures Leaf(Insert(node, parts, reference), other) == if other == parts then Some(reference) else Leaf(node, other)
    decreases |parts|
  {
    if parts != [] && other != [] && other[0] == parts[0] {
      var child := if parts[0] in node.children then node.children[parts[0]] else Trie(map[], None);
      LeafInserted(child, parts[1..], reference, other[1..]);
      NoLeaf(other[1..]);
      assert other == [other[0]] + other[1..] && parts == [parts[0]] + parts[1..];
    }
  }

  lemma {:induction false} InsertShallow(node: Trie, parts: seq<Name>, reference: Observed, depth: nat)
    requires Shallow(node, depth) && depth + |parts| <= DEPTH_LIMIT
    ensures Shallow(Insert(node, parts, reference), depth)
    decreases |parts|
  {
    if parts != [] {
      var child := if parts[0] in node.children then node.children[parts[0]] else Trie(map[], None);
      if child.reference.None? { InsertShallow(child, parts[1..], reference, depth + 1); }
      InsertReference(child, parts[1..], reference);
    }
  }

  lemma InsertReference(node: Trie, parts: seq<Name>, reference: Observed)
    ensures node.reference.Some? ==> Insert(node, parts, reference).reference.Some?
  {
  }

  /** The manifest lists this file; of repeated paths the last one counts. */
  function Wanted(assets: seq<Asset>, parts: seq<Name>): Option<Observed> {
    if assets == [] then None
    else
      var last := assets[|assets| - 1];
      if last.parts == parts then Some(last.reference) else Wanted(assets[..|assets| - 1], parts)
  }

  method BuildTrie(assets: seq<Asset>) returns (tree: Trie)
    ensures forall parts :: Leaf(tree, parts) == Wanted(assets, parts)
    ensures (forall a | a in assets :: |a.parts| <= DEPTH_LIMIT) ==> Shallow(tree, 0)
  {
    hide Shallow, Insert, Leaf;
    tree := Trie(map[], None);
    forall parts ensures Leaf(tree, parts) == None { NoLeaf(parts); }
    EmptyShallow();
    for i := 0 to |assets|
      invariant forall parts :: Leaf(tree, parts) == Wanted(assets[..i], parts)
      invariant (forall a | a in assets :: |a.parts| <= DEPTH_LIMIT) ==> Shallow(tree, 0)
    {
      var a := assets[i];
      forall parts ensures Leaf(Insert(tree, a.parts, a.reference), parts) == Wanted(assets[..i + 1], parts) {
        LeafInserted(tree, a.parts, a.reference, parts);
        assert assets[..i + 1][..i] == assets[..i];
      }
      if forall b | b in assets :: |b.parts| <= DEPTH_LIMIT {
        InsertShallow(tree, a.parts, a.reference, 0);
      }
      tree := Insert(tree, a.parts, a.reference);
    }
    assert assets[..|assets|] == assets;
  }

  lemma EmptyShallow()
    ensures Shallow(Trie(map[], None), 0)
  {
  }

  /** The whole comparison for a manifest that was accepted: no path of it has more than four
      parts. Within the entry limit the verdict is the highest-priority finding; beyond it the
      limit is reported, or an error that the tree holds. */
  method Inspect(assets: seq<Asset>, entries: seq<Entry>) returns (class_: Class, tree: Trie)
    requires |entries| <= ENTRY_LIMIT && forall a | a in assets :: |a.parts| <= DEPTH_LIMIT
    ensures forall parts :: Leaf(tree, parts) == Wanted(assets, parts)
    ensures class_ == Clean <==> Matches(tree, entries, 0) && |entries| + ListSize(tree, entries, 0) <= ENTRY_LIMIT
    ensures |entries| + ListSize(tree, entries, 0) <= ENTRY_LIMIT ==> class_ == Worst(tree, entries, 0)
    ensures |entries| + ListSize(tree, entries, 0) > ENTRY_LIMIT ==>
      class_ == LimitExceeded || (class_ == AssessmentError == Worst(tree, entries, 0))
  {
    hide Shallow, ListSize, Worst, Matches, Leaf;
    tree := BuildTrie(assets);
    var total;
    class_, total := Walk(tree, entries, 0, |entries|);
    CleanExactly(tree, entries, 0, |entries|, class_, total);
  }
}
