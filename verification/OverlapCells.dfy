/**
 Several passes over one path at the same time.  A pass goes through phases: it scans the file, reads the
 object's digest, reads the row and decides, then performs its operation effect by effect.  `Crowd` is
 the invariant that any number of interleaved passes keep on a cell that nobody else touches.
*/
module OverlapCells {
  import opened Wrappers
  import opened Envelope
  import opened Cells

  datatype Phase =
    | Unseen
    | SawFile(file: Option<string>)
    | SawBoth(file: Option<string>, obj: Option<string>)
    | Acting(kind: OpKind, digest: string, stage: Stage)
    | Idle

  predicate Over(s: Stage) { s.Finished? || s.Failed? }

  // One step of one pass on this cell.  An operation that has not started may also be dropped, because
  // the pass stopped at another path.
  ghost predicate PhaseStep(h: Bytes -> string, c: Cell, a: Phase, c1: Cell, a1: Phase) {
    || (c1 == c && a1 == a)
    || (a.Unseen? && c1 == c && a1 == SawFile(FileHash(h, c)))
    || (a.SawFile? && c1 == c && a1 == SawBoth(a.file, Digest(c)))
    || (a.SawBoth? && c1 == c
        && var kind := Decide(a.file, a.obj, c.row);
           a1 == if kind == Noop then Idle
                 else Acting(kind, if a.file.Some? then a.file.value else "", Todo))
    || (a.Acting?
        && var (c2, s2) := CellStep(h, c, a.kind, a.digest, a.stage);
           c1 == c2 && a1 == if Over(s2) then Idle else Acting(a.kind, a.digest, s2))
    || (a.Acting? && a.stage.Todo? && c1 == c && a1 == Idle)
  }

  /* ---- the invariant, by what a solo pass would decide for the starting cell ---- */

  // Noop and Conflict: nobody writes.
  ghost predicate QuietPhase(h: Bytes -> string, c0: Cell, a: Phase) {
    match a
    case SawFile(l) => l == FileHash(h, c0)
    case SawBoth(l, r) => l == FileHash(h, c0) && r == Digest(c0)
    case Acting(kind, _, stage) => kind == Conflict && stage == Todo
    case _ => true
  }

  // Upload of T: the file never changes, and the object is the old one or the new one.
  ghost predicate UpPhase(h: Bytes -> string, c0: Cell, c: Cell, a: Phase)
    requires c0.file.Some?
  {
    var T := c0.file.value;
    var sent := Some(RemoteView(h(T), Some(T)));
    match a
    case SawFile(l) => l == Some(h(T))
    case SawBoth(l, r) => l == Some(h(T)) && (r == Digest(c0) || (r == Some(h(T)) && c.obj == sent))
    case Acting(Upload, d, stage) =>
      d == h(T) && (stage == Todo || stage == Read(T) || (stage == Stored && c.obj == sent))
    case Acting(Download, d, stage) => c.obj == sent && (stage == Todo || stage == Fetched(T) || stage == Written(T))
    case Acting(kind, _, stage) => kind == Conflict && stage == Todo
    case _ => true
  }

  ghost predicate UpCell(h: Bytes -> string, c0: Cell, c: Cell)
    requires c0.file.Some?
  {
    var T := c0.file.value;
    var sent := Some(RemoteView(h(T), Some(T)));
    && c.file == c0.file
    && (c.obj == c0.obj || c.obj == sent)
    && (c.row == c0.row || (c.row == Some(h(T)) && c.obj == sent))
  }

  // The object is up and its row is still to be written.
  ghost predicate RowPending(h: Bytes -> string, c0: Cell, c: Cell)
    requires c0.file.Some?
  {
    var T := c0.file.value;
    c.obj == Some(RemoteView(h(T), Some(T))) && c.row != Some(h(T))
  }

  ghost predicate WritesRow(h: Bytes -> string, c0: Cell, a: Phase)
    requires c0.file.Some?
  {
    a == Acting(Upload, h(c0.file.value), Stored)
  }

  // Deletion of the object: the file stays away.
  ghost predicate DelPhase(c0: Cell, c: Cell, a: Phase) {
    match a
    case SawFile(l) => l.None?
    case SawBoth(l, r) => l.None? && (r == Digest(c0) || r.None?)
    case Acting(DeleteRemote, _, stage) => stage == Todo || (stage == Removed && c.obj.None?)
    case Acting(kind, _, stage) => kind == Download && stage == Todo && c.obj.None?
    case _ => true
  }

  ghost predicate DelCell(c0: Cell, c: Cell) {
    && c.file.None?
    && (c.obj == c0.obj || c.obj.None?)
    && (c.row == c0.row || (c.row.None? && c.obj.None?))
  }

  // Download of T to a path without a file.  A pass with a stale scan may delete the object again, but
  // only after the file has been written.
  ghost predicate NewPhase(h: Bytes -> string, T: Bytes, c: Cell, a: Phase) {
    match a
    case SawFile(l) => l.None? || (l == Some(h(T)) && c.file.Some?)
    case SawBoth(l, r) => (l.None? || (l == Some(h(T)) && c.file.Some?)) && (r.None? || r == Some(h(T)))
    case Acting(Upload, d, stage) =>
      d == h(T) && c.file.Some? && (stage == Todo || stage == Read(T) || stage == Stored)
    case Acting(Download, _, stage) => stage == Todo || stage == Fetched(T) || (stage == Written(T) && c.file.Some?)
    case Acting(kind, _, stage) => kind == DeleteRemote && c.file.Some? && (stage == Todo || stage == Removed)
    case _ => true
  }

  ghost predicate NewCell(h: Bytes -> string, T: Bytes, c0: Cell, c: Cell) {
    && (c.file.None? ==> c == c0)
    && (c.file.None? || c.file == Some(T))
    && (c.obj.None? || c.obj == c0.obj)
    && (c.row.None? || c.row == Some(h(T)))
  }

  // Download of T over an unchanged file.  The object holds T throughout; a pass with a stale scan may
  // put T up again under the old file's digest, and rows and digests may then disagree.
  ghost predicate LatePhase(h: Bytes -> string, old0: Bytes, T: Bytes, c: Cell, a: Phase) {
    match a
    case SawFile(l) => l == Some(h(old0)) || (l == Some(h(T)) && c.file == Some(T))
    case SawBoth(l, r) =>
      && (l == Some(h(old0)) || (l == Some(h(T)) && c.file == Some(T)))
      && (r == Some(h(T)) || r == Some(h(old0)))
    case Acting(Upload, d, stage) =>
      && (d == h(old0) || d == h(T)) && c.file == Some(T)
      && (stage == Todo || stage == Read(T) || stage == Stored)
    case Acting(Download, _, stage) =>
      stage == Todo || stage == Fetched(T) || (stage == Written(T) && c.file == Some(T))
    case Acting(kind, _, stage) => kind == Conflict && stage == Todo
    case _ => true
  }

  ghost predicate LateCell(h: Bytes -> string, old0: Bytes, T: Bytes, c0: Cell, c: Cell) {
    && (c == c0 || c.file == Some(T))
    && c.obj.Some? && c.obj.value.plain == Some(T)
    && (Digest(c) == Some(h(T)) || Digest(c) == Some(h(old0)))
    && (c.row == Some(h(old0)) || c.row == Some(h(T)))
  }

  // The same with two passes only.  A pass that scanned the file before the other pass replaced it, and
  // read the row after, uploads T under the old file's digest; by then the other pass is idle.
  ghost predicate OverPhase(h: Bytes -> string, old0: Bytes, T: Bytes, c: Cell, a: Phase, b: Phase) {
    match a
    case SawFile(l) => l == Some(h(old0)) || (l == Some(h(T)) && c.file == Some(T))
    case SawBoth(l, r) => (l == Some(h(old0)) || (l == Some(h(T)) && c.file == Some(T))) && r == Some(h(T))
    case Acting(Upload, d, stage) =>
      && d == h(old0) && b.Idle? && c.file == Some(T) && c.row == Some(h(T))
      && (((stage == Todo || stage == Read(T)) && Digest(c) == Some(h(T)))
          || (stage == Stored && Digest(c) == Some(h(old0))))
    case Acting(Download, _, stage) =>
      stage == Todo || stage == Fetched(T) || (stage == Written(T) && c.file == Some(T))
    case Acting(kind, _, stage) => kind == Conflict && stage == Todo
    case _ => true
  }

  ghost predicate OverJoint(h: Bytes -> string, old0: Bytes, T: Bytes, c0: Cell, c: Cell, a: Phase, b: Phase) {
    && (c == c0 || c.file == Some(T))
    && c.obj.Some? && c.obj.value.plain == Some(T)
    && (Digest(c) == Some(h(T)) || Digest(c) == Some(h(old0)))
    && (c.row == Some(h(old0)) || c.row == Some(h(T)))
    && (c.row == Some(h(T)) ==> a.Idle? || b.Idle?)
    && (c != c0 && c.row == Some(h(old0)) && Digest(c) == Some(h(T)) ==>
          (a.Acting? && a.kind == Download && a.stage == Written(T))
          || (b.Acting? && b.kind == Download && b.stage == Written(T)))
    && (Digest(c) == Some(h(old0)) ==>
          || (a.Acting? && a.kind == Upload && a.stage == Stored)
          || (b.Acting? && b.kind == Upload && b.stage == Stored)
          || (a.Idle? && b.Idle? && c.row == Some(h(old0))))
    && OverPhase(h, old0, T, c, a, b) && OverPhase(h, old0, T, c, b, a)
  }

  // A download over a file that is there.
  ghost predicate Replacing(h: Bytes -> string, c0: Cell) {
    CellDecide(h, c0) == Download && c0.file.Some?
  }

  // The cell together with one pass's phase.
  ghost predicate Fits(h: Bytes -> string, c0: Cell, c: Cell, a: Phase) {
    match CellDecide(h, c0)
    case Upload => c0.file.Some? && UpCell(h, c0, c) && UpPhase(h, c0, c, a)
    case DeleteRemote => DelCell(c0, c) && DelPhase(c0, c, a)
    case Download =>
      && c0.obj.Some? && c0.obj.value.plain.Some?
      && var T := c0.obj.value.plain.value;
         if c0.file.None? then NewCell(h, T, c0, c) && NewPhase(h, T, c, a)
         else LateCell(h, c0.file.value, T, c0, c) && LatePhase(h, c0.file.value, T, c, a)
    case _ => c == c0 && QuietPhase(h, c0, a)
  }

  ghost predicate SomeoneWritesRow(h: Bytes -> string, c0: Cell, phases: seq<Phase>)
    requires c0.file.Some?
  {
    exists i | 0 <= i < |phases| :: WritesRow(h, c0, phases[i])
  }

  ghost predicate Crowd(h: Bytes -> string, c0: Cell, c: Cell, phases: seq<Phase>) {
    && Fits(h, c0, c, Idle)
    && (forall i | 0 <= i < |phases| :: Fits(h, c0, c, phases[i]))
    && (CellDecide(h, c0) == Upload && RowPending(h, c0, c) ==> SomeoneWritesRow(h, c0, phases))
    && (Replacing(h, c0) && |phases| == 2 ==>
          OverJoint(h, c0.file.value, c0.obj.value.plain.value, c0, c, phases[0], phases[1]))
  }

  lemma CrowdInit(h: Bytes -> string, c0: Cell, phases: seq<Phase>)
    requires Ideal(h) && WellLabelled(h, c0) && forall i | 0 <= i < |phases| :: phases[i] == Unseen
    ensures Crowd(h, c0, c0, phases)
  {
  }

  lemma UpStep(h: Bytes -> string, c0: Cell, c: Cell, a: Phase, b: Phase, c1: Cell, a1: Phase)
    requires Ideal(h) && WellLabelled(h, c0) && CellDecide(h, c0) == Upload && UpCell(h, c0, c)
    requires UpPhase(h, c0, c, a) && UpPhase(h, c0, c, b) && PhaseStep(h, c, a, c1, a1)
    ensures UpCell(h, c0, c1) && UpPhase(h, c0, c1, a1) && UpPhase(h, c0, c1, b)
    ensures RowPending(h, c0, c1) ==> WritesRow(h, c0, a1) || (RowPending(h, c0, c) && !WritesRow(h, c0, a))
  {
  }

  lemma DelStep(h: Bytes -> string, c0: Cell, c: Cell, a: Phase, b: Phase, c1: Cell, a1: Phase)
    requires Ideal(h) && CellDecide(h, c0) == DeleteRemote && DelCell(c0, c)
    requires DelPhase(c0, c, a) && DelPhase(c0, c, b) && PhaseStep(h, c, a, c1, a1)
    ensures DelCell(c0, c1) && DelPhase(c0, c1, a1) && DelPhase(c0, c1, b)
  {
  }

  lemma NewStep(h: Bytes -> string, T: Bytes, c0: Cell, c: Cell, a: Phase, b: Phase, c1: Cell, a1: Phase)
    requires Ideal(h) && WellLabelled(h, c0) && CellDecide(h, c0) == Download && c0.file.None?
    requires c0.obj.value.plain == Some(T) && NewCell(h, T, c0, c)
    requires NewPhase(h, T, c, a) && NewPhase(h, T, c, b) && PhaseStep(h, c, a, c1, a1)
    ensures NewCell(h, T, c0, c1) && NewPhase(h, T, c1, a1) && NewPhase(h, T, c1, b)
  {
  }

  lemma LateStep(h: Bytes -> string, T: Bytes, c0: Cell, c: Cell, a: Phase, b: Phase, c1: Cell, a1: Phase)
    requires Ideal(h) && WellLabelled(h, c0) && Replacing(h, c0)
    requires c0.obj.value.plain == Some(T) && LateCell(h, c0.file.value, T, c0, c)
    requires LatePhase(h, c0.file.value, T, c, a) && LatePhase(h, c0.file.value, T, c, b) && PhaseStep(h, c, a, c1, a1)
    ensures LateCell(h, c0.file.value, T, c0, c1)
    ensures LatePhase(h, c0.file.value, T, c1, a1) && LatePhase(h, c0.file.value, T, c1, b)
  {
  }

  // A step of one pass suits that pass and every other.
  lemma FitsStep(h: Bytes -> string, c0: Cell, c: Cell, a: Phase, b: Phase, c1: Cell, a1: Phase)
    requires Ideal(h) && WellLabelled(h, c0)
    requires Fits(h, c0, c, a) && Fits(h, c0, c, b) && PhaseStep(h, c, a, c1, a1)
    ensures Fits(h, c0, c1, a1) && Fits(h, c0, c1, b)
  {
    SettleConverges(h, c0);
    match CellDecide(h, c0)
    case Upload => UpStep(h, c0, c, a, b, c1, a1);
    case DeleteRemote => DelStep(h, c0, c, a, b, c1, a1);
    case Download =>
      if c0.file.None? {
        NewStep(h, c0.obj.value.plain.value, c0, c, a, b, c1, a1);
      } else {
        LateStep(h, c0.obj.value.plain.value, c0, c, a, b, c1, a1);
      }
    case Noop =>
    case Conflict =>
  }

  lemma OverStep(h: Bytes -> string, c0: Cell, c: Cell, a: Phase, b: Phase, c1: Cell, a1: Phase)
    requires Ideal(h) && WellLabelled(h, c0) && CellDecide(h, c0) == Download && c0.file.Some?
    requires OverJoint(h, c0.file.value, c0.obj.value.plain.value, c0, c, a, b) && PhaseStep(h, c, a, c1, a1)
    ensures OverJoint(h, c0.file.value, c0.obj.value.plain.value, c0, c1, a1, b)
  {
  }

  lemma OverJointSymmetric(h: Bytes -> string, old0: Bytes, T: Bytes, c0: Cell, c: Cell, a: Phase, b: Phase)
    requires OverJoint(h, old0, T, c0, c, a, b)
    ensures OverJoint(h, old0, T, c0, c, b, a)
  {
  }

  // One of two passes steps.
  lemma PairStep(h: Bytes -> string, c0: Cell, c: Cell, phases: seq<Phase>, i: nat, c1: Cell, a1: Phase)
    requires Ideal(h) && WellLabelled(h, c0) && Replacing(h, c0) && |phases| == 2 && i < 2
    requires OverJoint(h, c0.file.value, c0.obj.value.plain.value, c0, c, phases[0], phases[1])
    requires PhaseStep(h, c, phases[i], c1, a1)
    ensures var after := phases[i := a1];
            OverJoint(h, c0.file.value, c0.obj.value.plain.value, c0, c1, after[0], after[1])
  {
    hide OverJoint, PhaseStep;
    var old0, T := c0.file.value, c0.obj.value.plain.value;
    if i == 0 {
      OverStep(h, c0, c, phases[0], phases[1], c1, a1);
    } else {
      OverJointSymmetric(h, old0, T, c0, c, phases[0], phases[1]);
      OverStep(h, c0, c, phases[1], phases[0], c1, a1);
      OverJointSymmetric(h, old0, T, c0, c1, a1, phases[0]);
    }
  }

  // Whoever still has to write the row keeps it pending.
  lemma RowStep(h: Bytes -> string, c0: Cell, c: Cell, phases: seq<Phase>, i: nat, c1: Cell, a1: Phase)
    requires Ideal(h) && WellLabelled(h, c0) && CellDecide(h, c0) == Upload && i < |phases|
    requires Crowd(h, c0, c, phases) && PhaseStep(h, c, phases[i], c1, a1) && RowPending(h, c0, c1)
    ensures SomeoneWritesRow(h, c0, phases[i := a1])
  {
    UpStep(h, c0, c, phases[i], phases[i], c1, a1);
    hide RowPending, PhaseStep, WritesRow;
    if WritesRow(h, c0, a1) {
      assert phases[i := a1][i] == a1;
    } else {
      var j :| 0 <= j < |phases| && WritesRow(h, c0, phases[j]);
      assert phases[i := a1][j] == phases[j];
    }
  }

  // The invariant of any number of passes is kept by every step of any of them.
  lemma CrowdStep(h: Bytes -> string, c0: Cell, c: Cell, phases: seq<Phase>, i: nat, c1: Cell, a1: Phase)
    requires Ideal(h) && WellLabelled(h, c0) && i < |phases|
    requires Crowd(h, c0, c, phases) && PhaseStep(h, c, phases[i], c1, a1)
    ensures Crowd(h, c0, c1, phases[i := a1])
  {
    var after := phases[i := a1];
    if CellDecide(h, c0) == Upload && RowPending(h, c0, c1) {
      RowStep(h, c0, c, phases, i, c1, a1);
    }
    if Replacing(h, c0) && |phases| == 2 {
      PairStep(h, c0, c, phases, i, c1, a1);
    }
    hide OverJoint, RowPending, SomeoneWritesRow, Fits, PhaseStep, CellDecide;
    FitsStep(h, c0, c, phases[i], Idle, c1, a1);
    forall j | 0 <= j < |after|
      ensures Fits(h, c0, c1, after[j])
    {
      FitsStep(h, c0, c, phases[i], phases[j], c1, a1);
    }
  }

  /* ---- what the invariant gives ---- */

  // At every moment: no file has gone, a path a solo pass would leave alone is untouched, and otherwise
  // the content a solo pass would settle on is on at least one side.
  ghost predicate Safe(h: Bytes -> string, c0: Cell, c: Cell) {
    var target := Settle(h, c0).file;
    && (c0.file.Some? ==> c.file.Some?)
    && (CellDecide(h, c0) == Noop || CellDecide(h, c0) == Conflict ==> c == c0)
    && (CellDecide(h, c0) != Noop && CellDecide(h, c0) != Conflict ==>
          if target.None? then c.file.None?
          else c.file == target || (c.obj.Some? && c.obj.value.plain == target))
  }

  lemma CrowdIsSafe(h: Bytes -> string, c0: Cell, c: Cell, phases: seq<Phase>)
    requires Ideal(h) && WellLabelled(h, c0) && Crowd(h, c0, c, phases)
    ensures Safe(h, c0, c)
  {
    RunClosedForm(h, c0, CellDecide(h, c0), ScanDigest(h, c0));
  }

  // A pass that has not begun or has nothing left to do here.
  predicate AtRest(a: Phase) { a.Idle? || a.Unseen? }

  // The passes have changed the cell and left its row and its label at odds.
  ghost predicate AtOdds(c0: Cell, c: Cell) {
    c != c0 && c.row.Some? && c.obj.Some? && c.row != Digest(c)
  }

  // Whatever the passes are in the middle of, if they all go no further, one more pass puts the content a
  // solo pass from the start would have left on both sides.  Row and label are right as well, except in
  // exactly one case, in which both sides already hold that content and which no later pass leaves.
  lemma CrowdHeals(h: Bytes -> string, c0: Cell, c: Cell, phases: seq<Phase>)
    requires Ideal(h) && WellLabelled(h, c0) && Crowd(h, c0, c, phases)
    ensures var d, solo := Settle(h, c), Settle(h, c0);
            && d.file == solo.file && ObjBytes(d) == ObjBytes(solo)
            && (Converged(h, d) <==> CellDecide(h, c0) != Conflict && !AtOdds(c0, c))
            && (Converged(h, d) ==> d.obj == solo.obj)
            && (CellDecide(h, c0) == Conflict ==> d == c == c0)
            && (AtOdds(c0, c) ==> d == c && BothHold(c, c.file))
  {
    RunClosedForm(h, c0, CellDecide(h, c0), ScanDigest(h, c0));
    RunClosedForm(h, c, CellDecide(h, c), ScanDigest(h, c));
  }

  // With all passes at rest only a path whose file was replaced can be left at odds.
  lemma OnlyReplacedAtOdds(h: Bytes -> string, c0: Cell, c: Cell, phases: seq<Phase>)
    requires Ideal(h) && WellLabelled(h, c0) && Crowd(h, c0, c, phases)
    requires forall i | 0 <= i < |phases| :: AtRest(phases[i])
    ensures AtOdds(c0, c) ==> Replacing(h, c0)
  {
  }

  // And with two passes at rest not even that.
  lemma PairLabelsAgree(h: Bytes -> string, c0: Cell, c: Cell, phases: seq<Phase>)
    requires Ideal(h) && WellLabelled(h, c0) && Crowd(h, c0, c, phases) && |phases| == 2
    requires forall i | 0 <= i < |phases| :: AtRest(phases[i])
    ensures !AtOdds(c0, c)
  {
    OnlyReplacedAtOdds(h, c0, c, phases);
    assert AtRest(phases[0]) && AtRest(phases[1]);
  }

  /* ---- the anomalies are real ---- */

  // A pass that scanned the old file, let the other pass download T, and then read digest and row,
  // uploads T under the old file's digest.
  lemma StaleScanMislabels(h: Bytes -> string, old0: Bytes, T: Bytes)
    requires Ideal(h) && old0 != T
    ensures var c0 := Cell(Some(old0), Some(RemoteView(h(T), Some(T))), Some(h(old0)));
            var c1 := Settle(h, c0);
            var a1, a2 := SawFile(Some(h(old0))), SawBoth(Some(h(old0)), Some(h(T)));
            var a3 := Acting(Upload, h(old0), Todo);
            && PhaseStep(h, c0, Unseen, c0, a1)
            && PhaseStep(h, c1, a1, c1, a2) && PhaseStep(h, c1, a2, c1, a3)
            && CellRun(h, c1, Upload, h(old0)).0 == Cell(Some(T), Some(RemoteView(h(old0), Some(T))), Some(h(old0)))
  {
    var c0 := Cell(Some(old0), Some(RemoteView(h(T), Some(T))), Some(h(old0)));
    RunClosedForm(h, c0, Download, h(old0));
    RunClosedForm(h, Settle(h, c0), Upload, h(old0));
  }

  // A pass that scanned before the other pass downloaded a new file takes it for a local deletion and
  // deletes the object; the file stays.
  lemma StaleScanDeletes(h: Bytes -> string, T: Bytes)
    requires Ideal(h)
    ensures var c0 := Cell(None, Some(RemoteView(h(T), Some(T))), None);
            var c1 := Settle(h, c0);
            var a1, a2 := SawFile(None), SawBoth(None, Some(h(T)));
            && PhaseStep(h, c0, Unseen, c0, a1)
            && PhaseStep(h, c1, a1, c1, a2) && PhaseStep(h, c1, a2, c1, Acting(DeleteRemote, "", Todo))
            && CellRun(h, c1, DeleteRemote, "").0 == Cell(Some(T), None, None)
  {
    var c0 := Cell(None, Some(RemoteView(h(T), Some(T))), None);
    RunClosedForm(h, c0, Download, "");
    RunClosedForm(h, Settle(h, c0), DeleteRemote, "");
  }

  // Three passes do: C decides to download, B scans the old file, A downloads T, B puts T up under the old
  // file's digest, and C downloads T again.  Every later pass then downloads T once more.
  lemma ThreePassesMislabel(h: Bytes -> string, old0: Bytes, T: Bytes)
    requires Ideal(h) && old0 != T
    ensures var c0 := Cell(Some(old0), Some(RemoteView(h(T), Some(T))), Some(h(old0)));
            var c1 := CellRun(h, c0, Download, h(old0)).0;
            var c2 := CellRun(h, c1, Upload, h(old0)).0;
            var c3 := CellRun(h, c2, Download, h(old0)).0;
            var scanned := SawBoth(Some(h(old0)), Some(h(T)));
            && CellDecide(h, c0) == Download
            && PhaseStep(h, c0, scanned, c0, Acting(Download, h(old0), Todo))
            && PhaseStep(h, c1, SawFile(Some(h(old0))), c1, scanned)
            && PhaseStep(h, c1, scanned, c1, Acting(Upload, h(old0), Todo))
            && c3 == Cell(Some(T), Some(RemoteView(h(old0), Some(T))), Some(h(T)))
            && AtOdds(c0, c3) && CellDecide(h, c3) == Download && Settle(h, c3) == c3
  {
    var c0 := Cell(Some(old0), Some(RemoteView(h(T), Some(T))), Some(h(old0)));
    var c1 := CellRun(h, c0, Download, h(old0)).0;
    RunClosedForm(h, c0, Download, h(old0));
    RunClosedForm(h, c1, Upload, h(old0));
    var c2 := CellRun(h, c1, Upload, h(old0)).0;
    RunClosedForm(h, c2, Download, h(old0));
    var c3 := CellRun(h, c2, Download, h(old0)).0;
    RunClosedForm(h, c3, Download, h(T));
  }
}
