/** What one backup prune may remove, and in which order: the files of the selected
    set, then its directories from the inside out, then its transaction journal. */
module RetentionRows {
  import opened Basics
  import opened PublicationRecords

  type Path = seq<char>

  /** A regular file, with its whole native identity. */
  datatype Image = Image(digest: Digest, mode: nat, bytes: nat, identity: nat)
  datatype Directory = Directory(path: Path, mode: nat, identity: nat)
  datatype Node = Leaf(image: Image) | Folder(mode: nat, identity: nat)

  const PRIVATE_FILE := 33152
  const PRIVATE_DIRECTORY := 16832

  /** One role entry of the set's manifest; a replaced or retired one was saved. */
  datatype Role = Role(path: Path, saved: bool)

  /** `known` stands for the checks of identifiers, roles and canonical metadata. */
  datatype Snapshot = Snapshot(
    id: Path, known: bool, roles: seq<Role>, receipt: bool, hold: bool,
    files: map<Path, Image>, directories: seq<Directory>, journal: Option<Image>)

  datatype Row = Row(path: Path, node: Node, journal: bool)

  function Base(id: Path): Path {
    ".factory/backups/" + id
  }

  function JournalPath(id: Path): Path {
    ".factory/installation-transactions/" + id + ".json"
  }

  function Inside(id: Path, name: Path): Path {
    Base(id) + "/" + name
  }

  // ----- parents -----

  /** Where the last slash is; -1 without one. */
  function LastSlash(path: Path): (n: int)
    ensures -1 <= n < |path| && (n >= 0 ==> path[n] == '/')
    ensures forall i | n < i < |path| :: path[i] != '/'
  {
    if path == [] then -1
    else if path[|path| - 1] == '/' then |path| - 1
    else LastSlash(path[..|path| - 1])
  }

  function Parent(path: Path): (r: Path)
    ensures |r| < |path| || path == []
  {
    var n := LastSlash(path);
    if n < 0 then [] else path[..n]
  }

  lemma SlashUnique(path: Path, n: nat)
    requires n < |path| && path[n] == '/' && forall i | n < i < |path| :: path[i] != '/'
    ensures LastSlash(path) == n
  {
  }

  /** The directories a file of the set needs: the base and each prefix of its name. */
  function DirectoriesOf(id: Path, name: Path): set<Path> {
    {Base(id)} + set i | 0 <= i < |name| && name[i] == '/' :: Base(id) + "/" + name[..i]
  }

  function DirectoryNames(id: Path, names: set<Path>): set<Path> {
    {Base(id)} + set name, d | name in names && d in DirectoriesOf(id, name) :: d
  }

  /** The parent of a file of the set is one of its directories. */
  lemma FileParent(id: Path, name: Path)
    ensures Parent(Inside(id, name)) in DirectoriesOf(id, name)
  {
    var path, n := Inside(id, name), LastSlash(name);
    assert path[|Base(id)|] == '/';
    if n < 0 {
      SlashUnique(path, |Base(id)|);
      assert path[..|Base(id)|] == Base(id);
    } else {
      SlashUnique(path, |Base(id)| + 1 + n);
      assert path[..|Base(id)| + 1 + n] == Base(id) + "/" + name[..n];
    }
  }

  /** So is the parent of each of those directories, below the base. */
  lemma DirectoryParent(id: Path, name: Path, d: Path)
    requires d in DirectoriesOf(id, name) && d != Base(id)
    ensures Parent(d) in DirectoriesOf(id, name)
  {
    var i :| 0 <= i < |name| && name[i] == '/' && d == Base(id) + "/" + name[..i];
    FileParent(id, name[..i]);
    assert d == Inside(id, name[..i]);
    if Parent(d) != Base(id) {
      var j :| 0 <= j < i && name[..i][j] == '/' && Parent(d) == Base(id) + "/" + name[..i][..j];
      assert name[..i][..j] == name[..j];
    }
  }

  // ----- order -----

  predicate TextLess(a: Path, b: Path) {
    if b == [] then false
    else if a == [] then true
    else a[0] < b[0] || (a[0] == b[0] && TextLess(a[1..], b[1..]))
  }

  lemma {:induction false} TextOrder(a: Path, b: Path)
    ensures !TextLess(a, a)
    ensures a != b ==> TextLess(a, b) != TextLess(b, a)
    decreases |a|
  {
    if a != [] {
      TextOrder(a[1..], if b == [] then [] else b[1..]);
      if b != [] && a[0] == b[0] && a != b { assert a == [a[0]] + a[1..] && b == [b[0]] + b[1..]; }
    }
  }

  lemma {:induction false} TextTransitive(a: Path, b: Path, c: Path)
    requires TextLess(a, b) && TextLess(b, c)
    ensures TextLess(a, c)
    decreases |a|
  {
    if a != [] && a[0] == b[0] && b[0] == c[0] { TextTransitive(a[1..], b[1..], c[1..]); }
  }

  predicate AheadAt(a: Path, b: Path, k: nat) {
    k <= |a| && k < |b| && a[..k] == b[..k] && (k == |a| || a[k] < b[k])
  }

  /** The first difference decides; a prefix comes first. */
  predicate Ahead(a: Path, b: Path) {
    exists k | 0 <= k <= |a| :: AheadAt(a, b, k)
  }

  lemma AheadOn(x: char, a: Path, b: Path, k: nat)
    ensures AheadAt([x] + a, [x] + b, k + 1) <==> AheadAt(a, b, k)
  {
    if k <= |a| && k < |b| {
      assert ([x] + a)[..k + 1] == [x] + a[..k] && ([x] + b)[..k + 1] == [x] + b[..k];
      assert a[..k] == ([x] + a)[..k + 1][1..] && b[..k] == ([x] + b)[..k + 1][1..];
    }
  }

  lemma AheadNext(x: char, a: Path, b: Path)
    ensures Ahead([x] + a, [x] + b) <==> Ahead(a, b)
  {
    var p, q := [x] + a, [x] + b;
    assert !AheadAt(p, q, 0);
    if k: nat :| AheadAt(a, b, k) {
      AheadOn(x, a, b, k);
    }
    if k: nat :| AheadAt(p, q, k) {
      AheadOn(x, a, b, k - 1);
    }
  }

  lemma AheadFirst(a: Path, b: Path)
    requires a != [] && b != [] && a[0] != b[0]
    ensures Ahead(a, b) <==> a[0] < b[0]
  {
    assert a[..0] == b[..0] && (AheadAt(a, b, 0) <==> a[0] < b[0]);
    forall k: nat | 0 < k <= |a| && k <= |b| ensures a[..k] != b[..k] {
      assert a[..k][0] == a[0] && b[..k][0] == b[0];
    }
  }

  lemma {:induction false} TextAhead(a: Path, b: Path)
    ensures TextLess(a, b) <==> Ahead(a, b)
    decreases |a|
  {
    if a == [] || b == [] {
      if b != [] { assert AheadAt(a, b, 0); }
    } else if a[0] != b[0] {
      AheadFirst(a, b);
    } else {
      TextAhead(a[1..], b[1..]);
      AheadNext(a[0], a[1..], b[1..]);
      assert a == [a[0]] + a[1..] && b == [a[0]] + b[1..];
    }
  }

  function Priority(name: Path): nat {
    if "assets/" <= name then 0
    else if name == "hold.json" then 1
    else if name == "retention.json" then 2
    else 3
  }

  predicate FileBefore(a: Path, b: Path) {
    Priority(a) < Priority(b) || (Priority(a) == Priority(b) && TextLess(a, b))
  }

  predicate DirectoryBefore(a: Path, b: Path) {
    |a| > |b| || (|a| == |b| && TextLess(b, a))
  }

  datatype Order = Files | Directories

  predicate Before(order: Order, a: Path, b: Path) {
    match order
    case Files => FileBefore(a, b)
    case Directories => DirectoryBefore(a, b)
  }

  lemma BeforeTotal(order: Order, a: Path, b: Path)
    ensures !Before(order, a, a)
    ensures a != b ==> Before(order, a, b) != Before(order, b, a)
  {
    TextOrder(a, b);
    TextOrder(b, a);
  }

  lemma BeforeTransitive(order: Order, a: Path, b: Path, c: Path)
    requires Before(order, a, b) && Before(order, b, c)
    ensures Before(order, a, c)
  {
    match order {
      case Files => if Priority(a) == Priority(b) == Priority(c) { TextTransitive(a, b, c); }
      case Directories => if |a| == |b| == |c| { TextTransitive(c, b, a); }
    }
  }

  predicate Sorted(order: Order, names: seq<Path>) {
    forall i, j | 0 <= i < j < |names| :: Before(order, names[i], names[j])
  }

  function Elements(names: seq<Path>): set<Path> {
    set n | n in names
  }

  lemma ElementsNone(names: seq<Path>)
    ensures Elements(names) == {} ==> names == []
  {
    if names != [] { assert names[0] in Elements(names); }
  }

  /** The sorted listing of a set of names is unique. */
  lemma {:induction false} SortedUnique(order: Order, a: seq<Path>, b: seq<Path>)
    requires Sorted(order, a) && Sorted(order, b) && Elements(a) == Elements(b)
    ensures a == b
    decreases |a|
  {
    if a == [] {
      ElementsNone(b);
    } else {
      assert a[0] in Elements(a) && a[0] in b;
      assert b != [] && b[0] in Elements(b) && b[0] in a;
      SameFirst(order, a, b);
      RestElements(order, a);
      RestElements(order, b);
      SortedUnique(order, a[1..], b[1..]);
      assert a == [a[0]] + a[1..] && b == [b[0]] + b[1..];
    }
  }

  lemma SameFirst(order: Order, a: seq<Path>, b: seq<Path>)
    requires Sorted(order, a) && Sorted(order, b) && a != [] && b != [] && a[0] in b && b[0] in a
    ensures a[0] == b[0]
  {
    var i :| 0 <= i < |b| && b[i] == a[0];
    var j :| 0 <= j < |a| && a[j] == b[0];
    BeforeTotal(order, a[0], b[0]);
  }

  lemma RestElements(order: Order, a: seq<Path>)
    requires Sorted(order, a) && a != []
    ensures Sorted(order, a[1..]) && Elements(a[1..]) == Elements(a) - {a[0]}
  {
    BeforeTotal(order, a[0], a[0]);
    assert a == [a[0]] + a[1..];
    assert forall i | 1 <= i < |a| :: Before(order, a[0], a[i]);
  }

  /** Sorts distinct names. */
  method Sort(order: Order, names: seq<Path>) returns (sorted: seq<Path>)
    requires |Elements(names)| == |names|
    ensures Sorted(order, sorted) && Elements(sorted) == Elements(names) && |sorted| == |names|
  {
    sorted := [];
    Distinct(names);
    for i := 0 to |names|
      invariant Sorted(order, sorted) && Elements(sorted) == Elements(names[..i]) && |sorted| == i
    {
      assert names[..i + 1] == names[..i] + [names[i]];
      assert names[i] !in sorted by { assert names[i] !in Elements(names[..i]); }
      sorted := Insert(order, sorted, names[i]);
    }
    assert names[..|names|] == names;
  }

  lemma {:induction false} Distinct(names: seq<Path>)
    requires |Elements(names)| == |names|
    ensures forall i | 0 <= i < |names| :: names[i] !in Elements(names[..i])
    decreases |names|
  {
    if names != [] {
      var k := |names| - 1;
      var rest := names[..k];
      assert names == rest + [names[k]];
      assert Elements(names) == Elements(rest) + {names[k]};
      ElementsSize(rest);
      Distinct(rest);
      forall i | 0 <= i < |names| ensures names[i] !in Elements(names[..i]) {
        if i < k { assert rest[i] == names[i] && rest[..i] == names[..i]; }
      }
    }
  }

  lemma {:induction false} ElementsSize(names: seq<Path>)
    ensures |Elements(names)| <= |names|
  {
    if names != [] {
      var rest := names[..|names| - 1];
      assert names == rest + [names[|names| - 1]];
      ElementsSize(rest);
      assert Elements(names) == Elements(rest) + {names[|names| - 1]};
    }
  }

  method Insert(order: Order, names: seq<Path>, name: Path) returns (r: seq<Path>)
    requires Sorted(order, names) && name !in names
    ensures Sorted(order, r) && Elements(r) == Elements(names) + {name} && |r| == |names| + 1
  {
    var i := 0;
    while i < |names| && Before(order, names[i], name)
      invariant 0 <= i <= |names|
      invariant forall j | 0 <= j < i :: Before(order, names[j], name)
    {
      i := i + 1;
    }
    r := names[..i] + [name] + names[i..];
    forall j | i <= j < |names| ensures Before(order, name, names[j]) {
      BeforeTotal(order, names[i], name);
      if i < j { BeforeTransitive(order, name, names[i], names[j]); }
    }
    assert names == names[..i] + names[i..];
  }

  // ----- the rows -----

  function Allowed(s: Snapshot): set<Path> {
    {"installation.manifest"}
    + (set r | r in s.roles && r.saved :: "assets/" + r.path)
    + (if s.receipt then {"retention.json"} else {})
    + (if s.hold then {"hold.json"} else {})
  }

  /** No file of the selection could be a directory of another one. */
  predicate PrefixFree(names: set<Path>) {
    forall a, b | a in names && b in names :: !(a + "/" <= b)
  }

  /** The recorded selection is complete and private. Role paths come from catalogs
      in which none is a directory of another. */
  predicate Selected(s: Snapshot) {
    && s.known && s.journal.Some?
    && s.files.Keys == Allowed(s) && PrefixFree(s.files.Keys)
    && (forall n | n in s.files :: s.files[n].mode == PRIVATE_FILE)
    && |s.directories| == |DirectoryNames(s.id, s.files.Keys)|
    && (set d | d in s.directories :: d.path) == DirectoryNames(s.id, s.files.Keys)
    && (forall d | d in s.directories :: d.mode == PRIVATE_DIRECTORY)
  }

  function FileRows(s: Snapshot, names: seq<Path>): (rows: seq<Row>)
    requires forall n | n in names :: n in s.files
    ensures |rows| == |names|
    ensures forall i | 0 <= i < |names| :: rows[i] == Row(Inside(s.id, names[i]), Leaf(s.files[names[i]]), false)
  {
    seq(|names|, i requires 0 <= i < |names| => Row(Inside(s.id, names[i]), Leaf(s.files[names[i]]), false))
  }

  predicate DirectoryRows(s: Snapshot, paths: seq<Path>, rows: seq<Row>) {
    && |rows| == |paths|
    && forall i | 0 <= i < |paths| ::
         && rows[i].path == paths[i] && !rows[i].journal && rows[i].node.Folder?
         && Directory(paths[i], rows[i].node.mode, rows[i].node.identity) in s.directories
  }

  /** The removal order of a selection: `names` and `paths` are its sorted files and
      directories. */
  ghost predicate Arranged(s: Snapshot, names: seq<Path>, paths: seq<Path>, rows: seq<Row>) {
    && Selected(s)
    && Sorted(Files, names) && Elements(names) == s.files.Keys
    && Sorted(Directories, paths) && Elements(paths) == DirectoryNames(s.id, s.files.Keys)
    && |rows| == |names| + |paths| + 1
    && rows[..|names|] == FileRows(s, names)
    && DirectoryRows(s, paths, rows[|names|..|names| + |paths|])
    && rows[|names| + |paths|] == Row(JournalPath(s.id), Leaf(s.journal.value), true)
  }

  ghost predicate IsRows(s: Snapshot, rows: seq<Row>) {
    exists names, paths :: Arranged(s, names, paths, rows)
  }

  /** A saved row list is recognized by comparing it with a recomputed one. */
  lemma RowsUnique(s: Snapshot, a: seq<Row>, b: seq<Row>)
    requires IsRows(s, a) && IsRows(s, b)
    ensures a == b
  {
    hide Selected, FileRows, DirectoryRows, Sorted, DirectoryNames, Elements;
    var names, paths :| Arranged(s, names, paths, a);
    var names', paths' :| Arranged(s, names', paths', b);
    SortedUnique(Files, names, names');
    SortedUnique(Directories, paths, paths');
    var n, m := |names|, |names| + |paths|;
    RowsSame(s, paths, a[n..m], b[n..m]);
    assert a == a[..n] + a[n..m] + [a[m]];
    assert b == b[..n] + b[n..m] + [b[m]];
  }

  lemma RowsSame(s: Snapshot, paths: seq<Path>, a: seq<Row>, b: seq<Row>)
    requires Selected(s) && DirectoryRows(s, paths, a) && DirectoryRows(s, paths, b)
    ensures a == b
  {
    hide Selected;
    DirectoriesUnique(s);
    forall i | 0 <= i < |paths| ensures a[i] == b[i] {
      var d := Directory(paths[i], a[i].node.mode, a[i].node.identity);
      var e := Directory(paths[i], b[i].node.mode, b[i].node.identity);
      assert d in s.directories && e in s.directories && d.path == e.path;
    }
  }

  /** As many records as names: each name has one. */
  lemma DirectoriesUnique(s: Snapshot)
    requires Selected(s)
    ensures forall d, e | d in s.directories && e in s.directories && d.path == e.path :: d == e
  {
    var all := s.directories;
    var paths := seq(|all|, i requires 0 <= i < |all| => all[i].path);
    assert |Elements(paths)| == |paths| by { PathsOf(all, paths); }
    hide Selected;
    Distinct(paths);
    assert forall i, j | 0 <= i < j < |paths| :: paths[i] != paths[j] by {
      forall i, j | 0 <= i < j < |paths| ensures paths[i] != paths[j] {
        assert paths[..j][i] == paths[i] && paths[i] in Elements(paths[..j]);
      }
    }
    forall d, e | d in all && e in all && d.path == e.path ensures d == e {
      var i :| 0 <= i < |all| && all[i] == d;
      var j :| 0 <= j < |all| && all[j] == e;
      assert paths[i] == paths[j];
    }
  }

  lemma PathsOf(all: seq<Directory>, paths: seq<Path>)
    requires |paths| == |all| && forall i | 0 <= i < |all| :: paths[i] == all[i].path
    ensures Elements(paths) == set d | d in all :: d.path
  {
    forall d | d in all ensures d.path in Elements(paths) {
      var i :| 0 <= i < |all| && all[i] == d;
      assert paths[i] == d.path;
    }
  }

  lemma RowsMatch(s: Snapshot, a: seq<Row>, b: seq<Row>)
    requires IsRows(s, a)
    ensures IsRows(s, b) <==> a == b
  {
    hide IsRows;
    if IsRows(s, b) { RowsUnique(s, a, b); }
  }

  // ----- what the order means -----

  /** The base directory, or something below it. */
  predicate Within(id: Path, path: Path) {
    path == Base(id) || Base(id) + "/" <= path
  }

  predicate Distinctly(rows: seq<Row>) {
    forall i, j | 0 <= i < j < |rows| :: rows[i].path != rows[j].path
  }

  /** A later row is the directory that holds this one. */
  ghost predicate HeldLater(rows: seq<Row>, i: nat) {
    i < |rows| && exists j :: i < j < |rows| && rows[j].path == Parent(rows[i].path) && rows[j].node.Folder?
  }

  predicate IsAsset(id: Path, row: Row) { row.node.Leaf? && Inside(id, "assets/") <= row.path }

  const METADATA := {"hold.json", "retention.json", "installation.manifest"}

  predicate IsFile(id: Path, row: Row, name: Path) { row.node.Leaf? && row.path == Inside(id, name) }

  /** The saved assets in byte order, then the hold, the receipt and the manifest. */
  predicate AssetsFirst(id: Path, rows: seq<Row>) {
    && (forall i, j | 0 <= i < j < |rows| && IsAsset(id, rows[i]) && IsAsset(id, rows[j]) ::
          Ahead(rows[i].path, rows[j].path))
    && (forall i, j, name | 0 <= i < |rows| && 0 <= j < |rows| && IsAsset(id, rows[i]) && name in METADATA
          && IsFile(id, rows[j], name) :: i < j)
    && (forall i, j | 0 <= i < |rows| && 0 <= j < |rows| && IsFile(id, rows[i], "hold.json")
          && (IsFile(id, rows[j], "retention.json") || IsFile(id, rows[j], "installation.manifest")) :: i < j)
    && (forall i, j | 0 <= i < |rows| && 0 <= j < |rows| && IsFile(id, rows[i], "retention.json")
          && IsFile(id, rows[j], "installation.manifest") :: i < j)
  }

  /** Directories stand by falling length, and those of one length in falling byte order. */
  predicate DeepestFirst(rows: seq<Row>) {
    forall i, j | 0 <= i < j < |rows| && rows[i].node.Folder? && rows[j].node.Folder? ::
      |rows[i].path| > |rows[j].path|
      || (|rows[i].path| == |rows[j].path| && Ahead(rows[j].path, rows[i].path))
  }

  /** Every file and directory of the selection has its row, private as recorded, and nothing
      else has one; the files are the manifest, the saved assets, and the receipt and the hold
      if there are any. */
  ghost predicate Whole(s: Snapshot, rows: seq<Row>) {
    && (forall name | name in s.files :: s.files[name].mode == PRIVATE_FILE)
    && (forall d | d in s.directories :: d.mode == PRIVATE_DIRECTORY)
    && "installation.manifest" in s.files
    && (forall role | role in s.roles && role.saved :: "assets/" + role.path in s.files)
    && ("retention.json" in s.files <==> s.receipt) && ("hold.json" in s.files <==> s.hold)
    && (forall name | name in s.files ::
          || name in METADATA
          || exists role :: role in s.roles && role.saved && name == "assets/" + role.path)
    && (forall name | name in s.files :: Row(Inside(s.id, name), Leaf(s.files[name]), false) in rows)
    && (forall d | d in s.directories :: Row(d.path, Folder(d.mode, d.identity), false) in rows)
    && |rows| == |s.files| + |s.directories| + 1
  }

  /** Files come before the directories that hold them, directories before their
      parents, and the journal last. */
  ghost predicate Ordered(id: Path, rows: seq<Row>) {
    && rows != [] && rows[|rows| - 1].path == JournalPath(id) && rows[|rows| - 1].journal && rows[|rows| - 1].node.Leaf?
    && (forall i | 0 <= i < |rows| - 1 :: !rows[i].journal && Within(id, rows[i].path))
    && Distinctly(rows)
    && (forall i | 0 <= i < |rows| - 1 && rows[i].path != Base(id) :: HeldLater(rows, i))
    && (forall i, j | 0 <= i < |rows| - 1 && 0 <= j < |rows| - 1 && rows[i].node.Leaf? && rows[j].node.Folder? :: i < j)
  }

  lemma RowsOrdered(s: Snapshot, rows: seq<Row>)
    requires IsRows(s, rows)
    ensures Ordered(s.id, rows) && AssetsFirst(s.id, rows) && DeepestFirst(rows) && Whole(s, rows)
  {
    hide Selected, DirectoryRows, FileRows, Sorted, Elements, DirectoryNames, HeldLater, Distinctly, Inside, Within,
         AssetsFirst, DeepestFirst, Whole;
    var names, paths :| Arranged(s, names, paths, rows);
    RowsListed(s, names, paths, rows);
    RowsDistinct(s, names, paths, rows);
    RowsHeld(s, names, paths, rows);
    RowsPrioritized(s, names, paths, rows);
    RowsDeepest(s, names, paths, rows);
    RowsWhole(s, names, paths, rows);
  }

  /** Which row is which. */
  lemma RowsListed(s: Snapshot, names: seq<Path>, paths: seq<Path>, rows: seq<Row>)
    requires Arranged(s, names, paths, rows)
    ensures forall i | 0 <= i < |names| :: rows[i] == Row(Inside(s.id, names[i]), Leaf(s.files[names[i]]), false)
    ensures forall i | |names| <= i < |names| + |paths| ::
      rows[i].path == paths[i - |names|] && rows[i].node.Folder? && !rows[i].journal
    ensures forall i | 0 <= i < |paths| :: Within(s.id, paths[i])
    ensures forall i | 0 <= i < |names| :: Within(s.id, Inside(s.id, names[i]))
  {
    hide Selected, Sorted;
    var n, m := |names|, |names| + |paths|;
    forall i | n <= i < m ensures rows[i].path == paths[i - n] && rows[i].node.Folder? && !rows[i].journal {
      assert rows[n..m][i - n] == rows[i];
    }
    forall i | 0 <= i < n ensures rows[i] == Row(Inside(s.id, names[i]), Leaf(s.files[names[i]]), false) {
      assert rows[..n][i] == rows[i];
    }
    forall i | 0 <= i < |paths| ensures Within(s.id, paths[i]) {
      assert paths[i] in Elements(paths);
    }
  }

  lemma SortedDistinct(order: Order, names: seq<Path>)
    requires Sorted(order, names)
    ensures forall i, j | 0 <= i < j < |names| :: names[i] != names[j]
  {
    forall i, j | 0 <= i < j < |names| ensures names[i] != names[j] { BeforeTotal(order, names[i], names[i]); }
  }

  lemma InsideApart(id: Path, a: Path, b: Path)
    ensures Inside(id, a) == Inside(id, b) ==> a == b
    ensures Inside(id, a) != JournalPath(id) && Base(id) != JournalPath(id)
    ensures !(Base(id) <= JournalPath(id))
  {
    assert Inside(id, a)[|Base(id)| + 1..] == a && Inside(id, b)[|Base(id)| + 1..] == b;
    assert Base(id)[9] == 'b' && JournalPath(id)[9] == 'i' && Inside(id, a)[9] == 'b';
  }

  /** A file of the selection is none of its directories. */
  lemma FileNotDirectory(id: Path, names: set<Path>, name: Path)
    requires PrefixFree(names) && name in names
    ensures Inside(id, name) !in DirectoryNames(id, names)
  {
    forall other, i | other in names && 0 <= i < |other| && other[i] == '/'
      ensures Inside(id, name) != Base(id) + "/" + other[..i]
    {
      InsideApart(id, name, other[..i]);
      assert other[..i] + "/" == other[..i + 1];
      assert !(name + "/" <= other);
    }
  }

  lemma RowsDistinct(s: Snapshot, names: seq<Path>, paths: seq<Path>, rows: seq<Row>)
    requires Arranged(s, names, paths, rows)
    ensures Distinctly(rows)
  {
    hide Selected, Sorted, DirectoryRows, FileRows;
    RowsListed(s, names, paths, rows);
    SortedDistinct(Files, names);
    SortedDistinct(Directories, paths);
    InsideApart(s.id, "", "");
    SelectedFree(s);
    forall i, j | 0 <= i < j < |rows| ensures rows[i].path != rows[j].path {
      if j < |names| {
        InsideApart(s.id, names[i], names[j]);
      } else if i < |names| && j < |names| + |paths| {
        assert names[i] in Elements(names) && paths[j - |names|] in Elements(paths);
        FileNotDirectory(s.id, s.files.Keys, names[i]);
      }
    }
  }

  lemma SelectedFree(s: Snapshot)
    requires Selected(s)
    ensures PrefixFree(s.files.Keys)
  {
  }

  lemma RowsHeld(s: Snapshot, names: seq<Path>, paths: seq<Path>, rows: seq<Row>)
    requires Arranged(s, names, paths, rows)
    ensures forall i | 0 <= i < |rows| - 1 && rows[i].path != Base(s.id) :: HeldLater(rows, i)
  {
    hide Selected, DirectoryRows, FileRows;
    RowsListed(s, names, paths, rows);
    forall i | 0 <= i < |rows| - 1 && rows[i].path != Base(s.id) ensures HeldLater(rows, i) {
      var path := rows[i].path;
      var name := OwnerOf(s, names, paths, i);
      if i < |names| { FileParent(s.id, name); } else { DirectoryParent(s.id, name, path); }
      assert Parent(path) in DirectoryNames(s.id, s.files.Keys);
      assert Parent(path) in Elements(paths);
      var j :| 0 <= j < |paths| && paths[j] == Parent(path);
      assert i >= |names| && j < i - |names| ==> Before(Directories, paths[j], paths[i - |names|]);
      assert rows[|names| + j].path == Parent(rows[i].path) && rows[|names| + j].node.Folder?;
    }
  }

  /** A file of the selection that needs the i-th row. */
  lemma OwnerOf(s: Snapshot, names: seq<Path>, paths: seq<Path>, i: nat) returns (name: Path)
    requires Elements(names) == s.files.Keys && Elements(paths) == DirectoryNames(s.id, s.files.Keys)
    requires i < |names| + |paths| && (i >= |names| ==> paths[i - |names|] != Base(s.id))
    ensures name in s.files
    ensures i < |names| ==> name == names[i]
    ensures i >= |names| ==> paths[i - |names|] in DirectoriesOf(s.id, name)
  {
    if i < |names| {
      name := names[i];
      assert name in Elements(names);
    } else {
      assert paths[i - |names|] in Elements(paths);
      name :| name in s.files.Keys && paths[i - |names|] in DirectoriesOf(s.id, name);
    }
  }

  /** A file of the selection, by its name. */
  lemma RowNamed(s: Snapshot, names: seq<Path>, paths: seq<Path>, rows: seq<Row>, i: nat, name: Path)
    requires Arranged(s, names, paths, rows) && i < |rows|
    requires rows[i].node.Leaf? && Inside(s.id, name) <= rows[i].path
    ensures i < |names| && name <= names[i] && rows[i].path == Inside(s.id, names[i])
    ensures rows[i].path == Inside(s.id, name) ==> names[i] == name
  {
    hide Selected, DirectoryRows, FileRows, Sorted, Elements, DirectoryNames, JournalPath;
    RowsListed(s, names, paths, rows);
    InsideApart(s.id, name, "");
    assert Base(s.id) <= Inside(s.id, name) <= rows[i].path;
    assert Inside(s.id, names[i])[|Base(s.id)| + 1..] == names[i];
    assert Inside(s.id, name)[|Base(s.id)| + 1..] == name;
  }

  lemma RowsPrioritized(s: Snapshot, names: seq<Path>, paths: seq<Path>, rows: seq<Row>)
    requires Arranged(s, names, paths, rows)
    ensures AssetsFirst(s.id, rows)
  {
    hide Arranged, Inside, Ahead, Sorted, Priority;
    ArrangedSorted(s, names, paths, rows);
    Priorities();
    forall i, j | 0 <= i < j < |rows| && IsAsset(s.id, rows[i]) && IsAsset(s.id, rows[j])
      ensures Ahead(rows[i].path, rows[j].path)
    {
      RowNamed(s, names, paths, rows, i, "assets/");
      RowNamed(s, names, paths, rows, j, "assets/");
      SortedAhead(s.id, names, i, j);
    }
    forall i, j, name | 0 <= i < |rows| && 0 <= j < |rows| && IsFile(s.id, rows[j], name)
      ensures IsAsset(s.id, rows[i]) && name in METADATA ==> i < j
      ensures IsFile(s.id, rows[i], "hold.json") && (name == "retention.json" || name == "installation.manifest") ==>
        i < j
      ensures IsFile(s.id, rows[i], "retention.json") && name == "installation.manifest" ==> i < j
    {
      RowNamed(s, names, paths, rows, j, name);
      if IsAsset(s.id, rows[i]) && name in METADATA { RowEarlier(s, names, paths, rows, i, j, "assets/"); }
      if IsFile(s.id, rows[i], "hold.json") && (name == "retention.json" || name == "installation.manifest") {
        RowEarlier(s, names, paths, rows, i, j, "hold.json");
      }
      if IsFile(s.id, rows[i], "retention.json") && name == "installation.manifest" {
        RowEarlier(s, names, paths, rows, i, j, "retention.json");
      }
    }
  }

  lemma RowEarlier(s: Snapshot, names: seq<Path>, paths: seq<Path>, rows: seq<Row>, i: nat, j: nat, first: Path)
    requires Arranged(s, names, paths, rows) && i < |rows| && j < |names|
    requires rows[i].node.Leaf? && Inside(s.id, first) <= rows[i].path
    requires first == "assets/" || rows[i].path == Inside(s.id, first)
    requires forall name: Path | first <= name && (first == "assets/" || name == first) ::
      Priority(name) < Priority(names[j])
    ensures i < j
  {
    hide Arranged, Inside, Sorted, Priority;
    ArrangedSorted(s, names, paths, rows);
    RowNamed(s, names, paths, rows, i, first);
    PrioritySorted(names, i, j);
  }

  lemma Priorities()
    ensures forall name: Path | "assets/" <= name :: Priority(name) < Priority("hold.json")
    ensures forall a: Path, b: Path | "assets/" <= a && "assets/" <= b :: Priority(a) == Priority(b)
    ensures Priority("hold.json") < Priority("retention.json") < Priority("installation.manifest")
  {
    assert "hold.json"[0] != "assets/"[0] && "retention.json"[0] != "assets/"[0];
    assert "installation.manifest"[0] != "assets/"[0] && "installation.manifest"[0] != "hold.json"[0];
    assert "retention.json"[0] != "hold.json"[0] && "installation.manifest"[0] != "retention.json"[0];
  }

  lemma ArrangedSorted(s: Snapshot, names: seq<Path>, paths: seq<Path>, rows: seq<Row>)
    requires Arranged(s, names, paths, rows)
    ensures Sorted(Files, names) && Sorted(Directories, paths)
  {
  }

  lemma SortedAhead(id: Path, names: seq<Path>, i: nat, j: nat)
    requires Sorted(Files, names) && i < j < |names| && Priority(names[i]) == Priority(names[j])
    ensures Ahead(Inside(id, names[i]), Inside(id, names[j]))
  {
    hide Priority;
    assert Before(Files, names[i], names[j]);
    TextAhead(names[i], names[j]);
    AheadInside(Base(id) + "/", names[i], names[j]);
  }

  lemma AheadInside(base: Path, a: Path, b: Path)
    requires Ahead(a, b)
    ensures Ahead(base + a, base + b)
  {
    var k :| 0 <= k <= |a| && AheadAt(a, b, k);
    var n: nat := |base| + k;
    assert (base + a)[..n] == base + a[..k] && (base + b)[..n] == base + b[..k];
    assert k < |a| ==> (base + a)[n] == a[k];
    assert (base + b)[n] == b[k];
    assert AheadAt(base + a, base + b, n);
  }

  lemma PrioritySorted(names: seq<Path>, i: nat, j: nat)
    requires Sorted(Files, names) && i < |names| && j < |names| && Priority(names[i]) < Priority(names[j])
    ensures i < j
  {
    hide Priority, TextLess;
    assert !Before(Files, names[j], names[i]);
  }

  lemma RowsDeepest(s: Snapshot, names: seq<Path>, paths: seq<Path>, rows: seq<Row>)
    requires Arranged(s, names, paths, rows)
    ensures DeepestFirst(rows)
  {
    hide Selected, DirectoryRows, FileRows, TextLess, Elements, DirectoryNames, Ahead, Inside, Within, JournalPath;
    RowsListed(s, names, paths, rows);
    forall i, j | 0 <= i < j < |rows| && rows[i].node.Folder? && rows[j].node.Folder?
      ensures |rows[i].path| > |rows[j].path|
        || (|rows[i].path| == |rows[j].path| && Ahead(rows[j].path, rows[i].path))
    {
      assert Before(Directories, paths[i - |names|], paths[j - |names|]);
      TextAhead(rows[j].path, rows[i].path);
    }
  }

  lemma RowsWhole(s: Snapshot, names: seq<Path>, paths: seq<Path>, rows: seq<Row>)
    requires Arranged(s, names, paths, rows)
    ensures Whole(s, rows)
  {
    hide Selected, Inside, DirectoryNames, Within, DirectoryRows, Sorted;
    RowsListed(s, names, paths, rows);
    forall name | name in s.files ensures Row(Inside(s.id, name), Leaf(s.files[name]), false) in rows {
      assert name in Elements(names);
      var i :| 0 <= i < |names| && names[i] == name;
      assert rows[i] == Row(Inside(s.id, name), Leaf(s.files[name]), false);
    }
    forall d | d in s.directories ensures Row(d.path, Folder(d.mode, d.identity), false) in rows {
      DirectoryListed(s, names, paths, rows, d);
    }
    SortedSize(Files, names);
    SortedSize(Directories, paths);
    SelectedSizes(s);
    SelectedFiles(s);
  }

  lemma SelectedFiles(s: Snapshot)
    requires Selected(s)
    ensures forall name | name in s.files :: s.files[name].mode == PRIVATE_FILE
    ensures forall d | d in s.directories :: d.mode == PRIVATE_DIRECTORY
    ensures "installation.manifest" in s.files
    ensures forall role | role in s.roles && role.saved :: "assets/" + role.path in s.files
    ensures ("retention.json" in s.files <==> s.receipt) && ("hold.json" in s.files <==> s.hold)
    ensures forall name | name in s.files ::
      name in METADATA || exists role :: role in s.roles && role.saved && name == "assets/" + role.path
  {
    hide DirectoryNames, PrefixFree;
    assert s.files.Keys == Allowed(s);
    forall role: Role ensures "assets/" + role.path != "hold.json" && "assets/" + role.path != "retention.json" {
      assert ("assets/" + role.path)[0] == 'a' && "hold.json"[0] == 'h' && "retention.json"[0] == 'r';
    }
    assert "installation.manifest"[0] != "hold.json"[0] && "installation.manifest"[0] != "retention.json"[0];
    assert "hold.json"[0] != "retention.json"[0];
  }

  lemma SelectedSizes(s: Snapshot)
    requires Selected(s)
    ensures |s.directories| == |DirectoryNames(s.id, s.files.Keys)|
    ensures forall d | d in s.directories :: d.path in DirectoryNames(s.id, s.files.Keys)
  {
    forall d | d in s.directories ensures d.path in DirectoryNames(s.id, s.files.Keys) {
      assert d.path in (set e | e in s.directories :: e.path);
    }
  }

  lemma {:induction false} SortedSize(order: Order, names: seq<Path>)
    requires Sorted(order, names)
    ensures |Elements(names)| == |names|
  {
    hide Before;
    if names != [] {
      SortedDistinct(order, names);
      RestElements(order, names);
      SortedSize(order, names[1..]);
      assert names[0] in Elements(names);
    }
  }

  lemma DirectoryListed(s: Snapshot, names: seq<Path>, paths: seq<Path>, rows: seq<Row>, d: Directory)
    requires Arranged(s, names, paths, rows) && d in s.directories
    ensures Row(d.path, Folder(d.mode, d.identity), false) in rows
  {
    hide Selected, Inside, DirectoryNames, Within, Sorted, FileRows;
    SelectedSizes(s);
    DirectoriesUnique(s);
    var n, m := |names|, |names| + |paths|;
    assert d.path in Elements(paths);
    var i :| 0 <= i < |paths| && paths[i] == d.path;
    var row := rows[n..m][i];
    assert row == rows[n + i];
    assert Directory(paths[i], row.node.mode, row.node.identity) in s.directories;
    assert row == Row(d.path, Folder(d.mode, d.identity), false);
  }

  // ----- computing them -----

  method Listing(names: set<Path>) returns (r: seq<Path>)
    ensures Elements(r) == names && |r| == |names|
  {
    r := [];
    var left := names;
    while left != {}
      invariant left <= names && Elements(r) == names - left && |r| == |names| - |left|
      decreases left
    {
      var n :| n in left;
      assert Elements(r + [n]) == Elements(r) + {n};
      left, r := left - {n}, r + [n];
    }
  }

  method FolderRows(s: Snapshot, paths: seq<Path>) returns (rows: seq<Row>)
    requires forall p | p in paths :: exists d :: d in s.directories && d.path == p
    ensures DirectoryRows(s, paths, rows)
  {
    rows := [];
    for i := 0 to |paths|
      invariant DirectoryRows(s, paths[..i], rows)
    {
      var j := 0;
      assert paths[i] in paths;
      ghost var d0 :| d0 in s.directories && d0.path == paths[i];
      ghost var k :| 0 <= k < |s.directories| && s.directories[k] == d0;
      while s.directories[j].path != paths[i]
        invariant 0 <= j <= k
        decreases k - j
      {
        j := j + 1;
      }
      var d := s.directories[j];
      assert d == Directory(paths[i], d.mode, d.identity);
      rows := rows + [Row(paths[i], Folder(d.mode, d.identity), false)];
    }
    assert paths[..|paths|] == paths;
  }

  /** Refuses an unrecognized selection; otherwise lists its removal order. */
  method Arrange(s: Snapshot) returns (rows: Option<seq<Row>>)
    ensures rows.Some? <==> Selected(s)
    ensures rows.Some? ==> IsRows(s, rows.value)
  {
    hide Sorted, DirectoryNames, Allowed, PrefixFree;
    if !Selected(s) { return None; }
    var listed := Listing(s.files.Keys);
    var names := Sort(Files, listed);
    listed := Listing(DirectoryNames(s.id, s.files.Keys));
    var paths := Sort(Directories, listed);
    forall p | p in paths ensures exists d :: d in s.directories && d.path == p {
      assert p in Elements(paths);
    }
    forall n | n in names ensures n in s.files { assert n in Elements(names); }
    var folders := FolderRows(s, paths);
    var all := FileRows(s, names) + folders + [Row(JournalPath(s.id), Leaf(s.journal.value), true)];
    assert all[..|names|] == FileRows(s, names);
    assert all[|names|..|names| + |paths|] == folders;
    assert Arranged(s, names, paths, all);
    rows := Some(all);
  }
}
