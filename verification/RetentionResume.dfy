/** The separate validation of an interrupted cleanup, and why every crash passes it. */
module RetentionResume {
  import opened Basics
  import opened RetentionRows
  import opened RetentionPrune

  const INVENTORY_LIMIT := 4096

  /** Absence is justified by an earlier durable removal or by an announced one. */
  predicate AbsenceAllowed(i: nat, next: nat, intent: bool) {
    i < next || (i == next && intent)
  }

  predicate RowAccepted(t: Tree, row: Row, i: nat, next: nat, intent: bool) {
    if row.path !in t.live then AbsenceAllowed(i, next, intent)
    else i >= next && t.live[row.path] == row.node
  }

  function Children(t: Tree, path: Path): set<Path> {
    set p | p in t.live && p != [] && Parent(p) == path
  }

  function Deeper(t: Tree, path: Path): set<Path> {
    set p | p in t.live && |p| > |path|
  }

  lemma ChildDeeper(t: Tree, path: Path, child: Path)
    requires child in Children(t, path)
    ensures |Deeper(t, child)| < |Deeper(t, path)|
  {
    Smaller(Deeper(t, child), Deeper(t, path), child);
  }

  lemma {:induction false} Smaller(a: set<Path>, b: set<Path>, x: Path)
    requires a <= b && x in b && x !in a
    ensures |a| < |b|
  {
    SubsetSize(a, b - {x});
  }

  /** Every entry below the directory belongs to the recorded rows. */
  predicate Walks(t: Tree, rows: seq<Row>, path: Path)
    decreases |Deeper(t, path)|
  {
    && |Children(t, path)| <= INVENTORY_LIMIT
    && forall c | c in Children(t, path) ::
         && Listed(rows, c)
         && (t.live[c].Folder? ==> (ChildDeeper(t, path, c); Walks(t, rows, c)))
  }

  predicate Accepted(t: Tree, id: Path, p: Progress) {
    && (forall i | 0 <= i < |p.rows| :: RowAccepted(t, p.rows[i], i, p.next, p.intent))
    && (Base(id) in t.live ==> Walks(t, p.rows, Base(id)))
  }

  /** Reads the directory and descends; unknown additions are refused, never removed. */
  method Walk(t: Tree, rows: seq<Row>, path: Path) returns (ok: bool)
    ensures ok <==> Walks(t, rows, path)
    decreases |Deeper(t, path)|
  {
    var entries := Children(t, path);
    if |entries| > INVENTORY_LIMIT { return false; }
    var left := entries;
    while left != {}
      invariant left <= entries
      invariant forall c | c in entries - left ::
        Listed(rows, c) && (t.live[c].Folder? ==> Walks(t, rows, c))
      decreases left
    {
      var c :| c in left;
      if !Listed(rows, c) { return false; }
      if t.live[c].Folder? {
        ChildDeeper(t, path, c);
        var inside := Walk(t, rows, c);
        if !inside { return false; }
      }
      left := left - {c};
    }
    ok := true;
  }

  method ValidateRemaining(t: Tree, id: Path, p: Progress) returns (ok: bool)
    ensures ok <==> Accepted(t, id, p)
  {
    hide Walks;
    for i := 0 to |p.rows|
      invariant forall j | 0 <= j < i :: RowAccepted(t, p.rows[j], j, p.next, p.intent)
    {
      var row := p.rows[i];
      var absentAllowed := i < p.next || (i == p.next && p.intent);
      if row.path !in t.live {
        if !absentAllowed { return false; }
      } else if i < p.next || t.live[row.path] != row.node {
        return false;
      }
    }
    ok := true;
    if Base(id) in t.live { ok := Walk(t, p.rows, Base(id)); }
  }

  // ----- every crash passes -----

  lemma {:induction false} ClassifiedWalks(t: Tree, id: Path, rows: seq<Row>, path: Path)
    requires Classified(t, id, rows) && Within(id, path) && |rows| <= INVENTORY_LIMIT
    ensures Walks(t, rows, path)
    decreases |Deeper(t, path)|
  {
    forall c | c in Children(t, path) ensures Listed(rows, c) && (t.live[c].Folder? ==> Walks(t, rows, c)) {
      ChildInside(id, c, path);
      ChildDeeper(t, path, c);
      ClassifiedWalks(t, id, rows, c);
    }
    var paths := set i | 0 <= i < |rows| :: rows[i].path;
    assert Children(t, path) <= paths;
    SubsetSize(Children(t, path), paths);
    RowPaths(rows);
  }

  lemma {:induction false} RowPaths(rows: seq<Row>)
    ensures |set i | 0 <= i < |rows| :: rows[i].path| <= |rows|
  {
    if rows != [] {
      var k := |rows| - 1;
      RowPaths(rows[..k]);
      var fewer := set i | 0 <= i < k :: rows[..k][i].path;
      assert (set i | 0 <= i < |rows| :: rows[i].path) == fewer + {rows[k].path};
    }
  }

  /** Whatever a crash undoes, the evidence it leaves is recognized and validated, and
      a later run may resume from it. */
  lemma CrashAccepted(t: Tree, c: Tree, id: Path, rows: seq<Row>)
    requires Sound(t, id, rows) && AfterCrash(t, c) && |rows| <= INVENTORY_LIMIT
    ensures Sound(c, id, rows)
    ensures Resumes(Current(c), id) ==> Recognized(Current(c).value) && Accepted(c, id, Current(c).value)
    ensures Resumes(Current(c), id) ==>
      var p := Current(c).value;
      forall i: nat | i < p.next && i < |p.rows| :: p.rows[i].path !in c.live
    ensures Resumes(Current(c), id) || Untouched(c, rows)
         || (Current(c).Some? && Current(c).value.stage == Finished && forall i | 0 <= i < |rows| :: Absent(c, rows[i]))
  {
    hide Recognized, Walks, Listed, Within;
    CrashSound(t, c, id, rows);
    assert Justified(Current(c), c, id, rows);
    WithinBase(id);
    if Resumes(Current(c), id) {
      var p := Current(c).value;
      if Base(id) in c.live { ClassifiedWalks(c, id, rows, Base(id)); }
      forall i: nat | i < p.next && i < |p.rows| ensures p.rows[i].path !in c.live { AcceptedAbsent(c, id, p, i); }
    }
  }

  lemma WithinBase(id: Path)
    ensures Within(id, Base(id))
  {
  }

  /** Accepted evidence durably covers the rows before `next`. */
  lemma AcceptedAbsent(t: Tree, id: Path, p: Progress, i: nat)
    requires Accepted(t, id, p) && i < |p.rows|
    ensures i < p.next ==> p.rows[i].path !in t.live
    ensures i == p.next && !p.intent ==> p.rows[i].path in t.live
    ensures i >= p.next && p.rows[i].path in t.live ==> t.live[p.rows[i].path] == p.rows[i].node
    ensures i > p.next ==> p.rows[i].path in t.live && t.live[p.rows[i].path] == p.rows[i].node
  {
    hide Walks;
    assert RowAccepted(t, p.rows[i], i, p.next, p.intent);
  }

  /** A cleanup interrupted at any moment and resumed without another failure is
      completed, and removes nothing but its rows. */
  method Resume(v: Storage, snapshot: Snapshot, protect: Path, ghost rows: seq<Row>) returns (tally: Tally, s: Outcome)
    requires v.Valid() && IsRows(snapshot, rows) && Selected(snapshot)
    requires Safe(v.visited, snapshot.id, rows) && Resumes(Current(v.tree), snapshot.id)
    modifies v`tree, v`visited, v`faults
    ensures v.Valid() && v.faults >= old(v.faults) && Safe(v.visited, snapshot.id, rows)
    ensures Confined(old(v.tree).live, v.tree.live, rows)
    ensures s == Done ==> Cleared(v.tree, rows, protect)
    ensures v.faults == old(v.faults) && Housed(old(v.tree).live, snapshot.id, rows) && protect != snapshot.id ==>
      Accepted(old(v.tree), snapshot.id, Current(old(v.tree)).value) ==> s == Done
  {
    hide IsRows, Safe, Accepted, Selected, Cleared, Housed;
    tally, s := Tally(0, 0), Refused;
    SameConfined(v.tree.live, rows);
    var current := Current(v.tree).value;
    ResumeRecognized(v.visited, v.tree, snapshot.id, rows);
    var ok := ValidateRemaining(v.tree, snapshot.id, current);
    if !ok { return; }
    tally, s := ExecutePrune(v, snapshot, protect, rows);
  }

  lemma ResumeRecognized(visited: set<Tree>, t: Tree, id: Path, rows: seq<Row>)
    requires Safe(visited, id, rows) && t in visited && t.log != [] && Resumes(Current(t), id)
    ensures Recognized(Current(t).value) && Current(t).value.snapshot.id == id
  {
    hide Recognized;
    assert Justified(Current(t), t, id, rows);
  }
}
