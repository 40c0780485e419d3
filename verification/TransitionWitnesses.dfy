/** A forward recovery that completes without a failing operation and is blocked for good by
    the next power loss: the rename of the process before it was never flushed. */
module TransitionWitnesses {
  import opened Basics
  import opened TransitionPlans
  import opened TransitionRows
  import opened TransitionResume
  import RetentionRows

  const PATH: Path := "factory"
  const ORIGINAL := Image(PRIVATE_MODE, 1, 10, Some(Identity(1, 2, 3)))

  /** The image in the new installation, the file staged for it, and that file once named. */
  const DESIRED := Image(PRIVATE_MODE, 2, 20, None)
  const STAGED := DESIRED.(identity := Some(Identity(4, 5, 6)))
  const NAMED := DESIRED.(identity := Some(Identity(4, 5, 7)))

  const SELECTED := Entry(Replace, Prepared, Some(ORIGINAL), Some(DESIRED), None, None)
  const RECIPE := [Role(PATH, false, true)]
  const TARGETS := map[PATH := DESIRED]

  /** The intent and the identity of the staged file are saved, and the file is named. */
  const INTENT := Journal(false, Applying, map[PATH := SELECTED.(prepared := Some(STAGED))])
  const KILLED := NamedAt(State(INTENT, map[PATH := ORIGINAL], map[]), PATH, NAMED)

  /** What the recovery in the same uptime reads. */
  const EVIDENCE := Evidence(
    INTENT, map[PATH := SELECTED], RECIPE, TARGETS, Baseline(map[PATH := Some(ORIGINAL)], []),
    map[PATH := ORIGINAL.(identity := None)], KILLED.files, Recovery(false))

  /** Its plan: the file is at its target, so nothing is applied and nothing is flushed. */
  const KEPT := Move(PATH, Retain, Some(NAMED), Some(DESIRED), Some(Blob(2, 20)))

  /** The completed recovery, and a power loss that undoes the rename. */
  const DONE := Journal(false, Committed, map[PATH := SELECTED.(
    prepared := Some(STAGED), observed := Some(NAMED), stage := Applied)])
  const COMPLETED := State(DONE, KILLED.files, KILLED.doubt)
  const LOST := Crash(DONE, map[PATH := ORIGINAL])

  /** Every crash can be planned again when the recovery starts, and its only move strands
      nothing; the row lingers, and after the completed recovery one crash is blocked in both
      directions. */
  lemma LostRename()
    ensures Read(EVIDENCE, KILLED.doubt) == KILLED && Genuine(KILLED) && Qualified(EVIDENCE) && !Cleanup(EVIDENCE)
    ensures Ready(KILLED, RECIPE, TARGETS, [KEPT], false) && Definite(KILLED, [KEPT])
    ensures AllResume(KILLED, RECIPE, TARGETS)
    ensures !Strands(INTENT.entries[PATH], Some(DESIRED), KEPT, Possible(KILLED, PATH))
    ensures Final(KILLED, COMPLETED, [KEPT], false) && Shows(COMPLETED, LOST)
    ensures Qualified(After(EVIDENCE, LOST, Repeat)) && Qualified(After(EVIDENCE, LOST, Rollback))
    ensures !CanResume(LOST, RECIPE, TARGETS)
  {
    hide Qualified, Ready, Final, Shows, AllResume, CanResume;
    KilledPossible();
    KilledReady();
    KilledResumes();
    RecoveryCompletes();
    assert Qualified(After(EVIDENCE, LOST, Repeat)) && Qualified(After(EVIDENCE, LOST, Rollback)) by {
      StillQualified(EVIDENCE, KILLED, COMPLETED, [KEPT], LOST, Repeat);
      StillQualified(EVIDENCE, KILLED, COMPLETED, [KEPT], LOST, Rollback);
    }
    LostBlocked();
  }

  lemma KilledReady()
    ensures Qualified(EVIDENCE) && Ready(KILLED, RECIPE, TARGETS, [KEPT], false)
  {
    hide RetentionRows.Parent;
  }

  lemma KilledResumes()
    ensures AllResume(KILLED, RECIPE, TARGETS)
  {
    hide RetentionRows.Parent;
    KilledPossible();
  }

  /** The committed record becomes durable, and the name stays in doubt. */
  lemma RecoveryCompletes()
    ensures Final(KILLED, COMPLETED, [KEPT], false) && CrashSafe(KILLED, COMPLETED, [KEPT]) && Shows(COMPLETED, LOST)
  {
    hide RetentionRows.Parent;
    KilledPossible();
    assert forall p: Path :: Possible(COMPLETED, p) == Possible(KILLED, p);
    assert forall p: Path | p != PATH :: Lookup(LOST.files, p) == None;
    LegalSafe(KILLED, COMPLETED, [KEPT], false);
  }

  lemma LostBlocked()
    ensures !CanResume(LOST, RECIPE, TARGETS)
  {
    assert RECIPE[0] in RECIPE;
  }

  lemma KilledPossible()
    ensures Possible(KILLED, PATH) == {Some(ORIGINAL), Some(NAMED)}
    ensures forall p: Path | p != PATH :: Possible(KILLED, p) == {None}
  {
    NamedPossible(State(INTENT, map[PATH := ORIGINAL], map[]), PATH, NAMED);
  }

  /** Flushing the directory first is enough. */
  lemma FlushedFirst()
    ensures
      var flushed := SyncedAt(KILLED, RetentionRows.Parent(PATH));
      && Ready(flushed, RECIPE, TARGETS, [KEPT], false) && Definite(flushed, [KEPT])
      && Secure(flushed, RECIPE, TARGETS, [KEPT], false)
  {
    hide RetentionRows.Parent;
    var flushed := SyncedAt(KILLED, RetentionRows.Parent(PATH));
    assert Ready(flushed, RECIPE, TARGETS, [KEPT], false);
    FlushedSecure(flushed, RECIPE, TARGETS, [KEPT], false);
  }
}
