/**
 One path seen in isolation.  The engine keeps, for each path, a local file, a remote object and a
 last-synced row; an operation on a path touches these three slots and nothing else.  A `Cell` holds
 the three slots with the remote object already decrypted.  This module is the per-path theory of the
 reconciler: what it decides, what each atomic store effect does, and where a pass leaves the cell.
*/
module Cells {
  import opened Wrappers
  import opened Envelope

  datatype OpKind = Noop | Upload | Download | DeleteRemote | DeleteLocal | Conflict

  // A remote object: the plaintext hash its metadata claims, and what it decrypts to (if it does).
  datatype RemoteView = RemoteView(digest: string, plain: Option<Bytes>)

  datatype Cell = Cell(file: Option<Bytes>, obj: Option<RemoteView>, row: Option<string>)

  /* ---- what the planner decides ---- */

  // The three-way comparison for one path, on hashes; None means "no entry on that side".
  function Decide(local: Option<string>, remote: Option<string>, state: Option<string>): OpKind {
    match (local, remote, state)
    case (Some(_), None, _) => Upload
    case (Some(l), Some(r), None) => if r == l then Noop else Conflict
    case (Some(l), Some(r), Some(s)) =>
      var localChanged := l != s;
      var remoteChanged := r != s && r != "";
      if localChanged && remoteChanged then Conflict
      else if localChanged then Upload
      else if remoteChanged then Download
      else Noop
    case (None, Some(_), Some(_)) => DeleteRemote
    case (None, Some(_), None) => Download
    case (None, None, _) => Noop
  }

  function FileHash(h: Bytes -> string, c: Cell): Option<string> {
    if c.file.Some? then Some(h(c.file.value)) else None
  }

  function Digest(c: Cell): Option<string> {
    if c.obj.Some? then Some(c.obj.value.digest) else None
  }

  // What the object decrypts to, if there is one and it does.
  function ObjBytes(c: Cell): Option<Bytes> {
    if c.obj.Some? then c.obj.value.plain else None
  }

  function CellDecide(h: Bytes -> string, c: Cell): OpKind {
    Decide(FileHash(h, c), Digest(c), c.row)
  }

  /* ---- what one operation does, one store effect at a time ---- */

  // How far an operation has got.  Read and Fetched hold bytes that are in memory only.
  datatype Stage =
    | Todo
    | Read(plain: Bytes)
    | Stored
    | Fetched(plain: Bytes)
    | Written(plain: Bytes)
    | Removed
    | Finished
    | Failed

  // One atomic step of an operation on this cell.  `digest` is the hash taken when the file was scanned.
  function CellStep(h: Bytes -> string, c: Cell, kind: OpKind, digest: string, stage: Stage): (r: (Cell, Stage)) {
    match kind
    case Upload =>
      (match stage
       case Todo => if c.file.Some? then (c, Read(c.file.value)) else (c, Failed)
       case Read(b) => (c.(obj := Some(RemoteView(digest, Some(b)))), Stored)
       case Stored => (c.(row := Some(digest)), Finished)
       case _ => (c, stage))
    case Download =>
      (match stage
       case Todo =>
         if c.obj.Some? && c.obj.value.plain.Some? then (c, Fetched(c.obj.value.plain.value)) else (c, Failed)
       case Fetched(b) => (c.(file := Some(b)), Written(b))
       case Written(b) => (c.(row := Some(h(b))), Finished)
       case _ => (c, stage))
    case DeleteRemote =>
      (match stage
       case Todo => (c.(obj := None), Removed)
       case Removed => (c.(row := None), Finished)
       case _ => (c, stage))
    case DeleteLocal =>
      (match stage
       case Todo => (c.(file := None), Removed)
       case Removed => (c.(row := None), Finished)
       case _ => (c, stage))
    case _ => (c, if stage.Todo? then Finished else stage)
  }

  function CellAdvance(h: Bytes -> string, c: Cell, kind: OpKind, digest: string, stage: Stage, k: nat): (Cell, Stage)
    decreases k
  {
    if k == 0 then (c, stage)
    else
      var (c1, s1) := CellStep(h, c, kind, digest, stage);
      CellAdvance(h, c1, kind, digest, s1, k - 1)
  }

  // Three steps complete any operation.
  const STEPS: nat := 3

  function CellRun(h: Bytes -> string, c: Cell, kind: OpKind, digest: string): (Cell, Stage) {
    CellAdvance(h, c, kind, digest, Todo, STEPS)
  }

  // The hash a quiet pass scans for this cell, and where that pass leaves the cell.
  function ScanDigest(h: Bytes -> string, c: Cell): string {
    if c.file.Some? then h(c.file.value) else ""
  }

  function Settle(h: Bytes -> string, c: Cell): Cell {
    CellRun(h, c, CellDecide(h, c), ScanDigest(h, c)).0
  }

  predicate Runnable(c: Cell, kind: OpKind) {
    && (kind == Upload ==> c.file.Some?)
    && (kind == Download ==> c.obj.Some? && c.obj.value.plain.Some?)
  }

  /* ---- what a settled cell looks like ---- */

  ghost predicate WellLabelled(h: Bytes -> string, c: Cell) {
    c.obj.Some? ==> c.obj.value.plain.Some? && c.obj.value.digest == h(c.obj.value.plain.value)
  }

  ghost predicate BothHold(c: Cell, content: Option<Bytes>) {
    content.Some? && c.file == content && c.obj.Some? && c.obj.value.plain == content
  }

  // Both sides hold these bytes, the object is labelled with their hash, and no row says otherwise.
  ghost predicate Mirrors(h: Bytes -> string, c: Cell, b: Bytes) {
    && c.file == Some(b)
    && c.obj == Some(RemoteView(h(b), Some(b)))
    && (c.row.Some? ==> c.row.value == h(b))
  }

  ghost predicate Converged(h: Bytes -> string, c: Cell) {
    if c.file.Some? then Mirrors(h, c, c.file.value) else c.obj.None?
  }

  // The closed form of a whole operation; every later lemma about passes starts here.
  lemma RunClosedForm(h: Bytes -> string, c: Cell, kind: OpKind, digest: string)
    ensures CellRun(h, c, kind, digest) ==
            match kind
            case Upload =>
              if c.file.None? then (c, Failed)
              else (Cell(c.file, Some(RemoteView(digest, c.file)), Some(digest)), Finished)
            case Download =>
              if c.obj.None? || c.obj.value.plain.None? then (c, Failed)
              else (Cell(c.obj.value.plain, c.obj, Some(h(c.obj.value.plain.value))), Finished)
            case DeleteRemote => (Cell(c.file, None, None), Finished)
            case DeleteLocal => (Cell(None, c.obj, None), Finished)
            case _ => (c, Finished)
  {
    var (c1, s1) := CellStep(h, c, kind, digest, Todo);
    var (c2, s2) := CellStep(h, c1, kind, digest, s1);
    var (c3, s3) := CellStep(h, c2, kind, digest, s2);
    assert CellAdvance(h, c3, kind, digest, s3, 0) == (c3, s3);
    assert CellAdvance(h, c2, kind, digest, s2, 1) == (c3, s3);
    assert CellAdvance(h, c1, kind, digest, s1, 2) == (c3, s3);
  }

  // A quiet pass over a well-labelled cell converges unless it reports a conflict, which changes nothing.
  lemma SettleConverges(h: Bytes -> string, c: Cell)
    requires Ideal(h) && WellLabelled(h, c)
    ensures CellDecide(h, c) != Conflict ==> Converged(h, Settle(h, c))
    ensures CellDecide(h, c) == Conflict ==> Settle(h, c) == c
    ensures CellDecide(h, c) != DeleteLocal
    ensures WellLabelled(h, Settle(h, c))
    ensures c.file.Some? ==> Settle(h, c).file.Some?
    ensures Runnable(c, CellDecide(h, c))
  {
    RunClosedForm(h, c, CellDecide(h, c), ScanDigest(h, c));
  }

  // A second quiet pass finds the same conflicts and nothing else, and changes nothing.
  lemma SettleIdempotent(h: Bytes -> string, c: Cell)
    requires Ideal(h) && WellLabelled(h, c)
    ensures var d := Settle(h, c);
            && CellDecide(h, d) == (if CellDecide(h, c) == Conflict then Conflict else Noop)
            && Settle(h, d) == d
  {
    RunClosedForm(h, c, CellDecide(h, c), ScanDigest(h, c));
    var d := Settle(h, c);
    RunClosedForm(h, d, CellDecide(h, d), ScanDigest(h, d));
  }

  lemma AdvanceUnrolled(h: Bytes -> string, c: Cell, kind: OpKind, digest: string, k: nat)
    requires k <= STEPS
    ensures var (c1, s1) := CellStep(h, c, kind, digest, Todo);
            var (c2, s2) := CellStep(h, c1, kind, digest, s1);
            var (c3, s3) := CellStep(h, c2, kind, digest, s2);
            CellAdvance(h, c, kind, digest, Todo, k).0 == if k == 0 then c else if k == 1 then c1 else if k == 2 then c2 else c3
  {
    var (c1, s1) := CellStep(h, c, kind, digest, Todo);
    var (c2, s2) := CellStep(h, c1, kind, digest, s1);
    var (c3, s3) := CellStep(h, c2, kind, digest, s2);
    assert CellAdvance(h, c, kind, digest, Todo, 0).0 == c;
    assert CellAdvance(h, c1, kind, digest, s1, 0).0 == c1;
    assert CellAdvance(h, c2, kind, digest, s2, 0).0 == c2;
    assert CellAdvance(h, c3, kind, digest, s3, 0).0 == c3;
    assert CellAdvance(h, c2, kind, digest, s2, 1).0 == c3;
    assert CellAdvance(h, c1, kind, digest, s1, 1).0 == c2;
    assert CellAdvance(h, c1, kind, digest, s1, 2).0 == c3;
  }

  // The one way an interruption shows: an upload or a download cut between its data and its row, over
  // a row for other bytes.
  ghost predicate CutShowsConflict(h: Bytes -> string, c: Cell, k: nat) {
    && k == 2 && (CellDecide(h, c) == Upload || CellDecide(h, c) == Download)
    && c.row.Some? && c.row != FileHash(h, Settle(h, c))
  }

  // Stop an operation after any number of its store effects, then run one quiet pass.  The file and
  // the object end exactly where an undisturbed pass would have put them; only the row can differ, and
  // then either it is missing or it is stale, which shows as a conflict between two identical sides.
  lemma InterruptedCell(h: Bytes -> string, c: Cell, k: nat)
    requires Ideal(h) && WellLabelled(h, c) && k <= STEPS
    ensures var part := CellAdvance(h, c, CellDecide(h, c), ScanDigest(h, c), Todo, k).0;
            var healed := Settle(h, part);
            && WellLabelled(h, part)
            && healed.file == Settle(h, c).file
            && healed.obj == Settle(h, c).obj
            && (CellDecide(h, c) == Conflict || Converged(h, healed)
                || (CellDecide(h, part) == Conflict && healed.file.Some? && healed.obj.Some?
                    && healed.obj.value.plain == healed.file
                    && c.row.Some? && healed.row == c.row && c.row.value != h(healed.file.value)))
  {
    var kind, digest := CellDecide(h, c), ScanDigest(h, c);
    var part := CellAdvance(h, c, kind, digest, Todo, k).0;
    AdvanceUnrolled(h, c, kind, digest, k);
    RunClosedForm(h, c, kind, digest);
    RunClosedForm(h, part, CellDecide(h, part), ScanDigest(h, part));
  }

  lemma InterruptedConflict(h: Bytes -> string, c: Cell, k: nat)
    requires Ideal(h) && WellLabelled(h, c) && k <= STEPS
    ensures var part := CellAdvance(h, c, CellDecide(h, c), ScanDigest(h, c), Todo, k).0;
            CellDecide(h, part) == Conflict <==> CellDecide(h, c) == Conflict || CutShowsConflict(h, c, k)
  {
    AdvanceUnrolled(h, c, CellDecide(h, c), ScanDigest(h, c), k);
    RunClosedForm(h, c, CellDecide(h, c), ScanDigest(h, c));
  }

  // `healed` is where a cell left as `part` by an interrupted pass over `c` ends after one quiet pass.
  ghost predicate Recovered(h: Bytes -> string, c: Cell, part: Cell, healed: Cell) {
    && healed.file == Settle(h, c).file
    && healed.obj == Settle(h, c).obj
    && (CellDecide(h, c) == Conflict || Converged(h, healed)
        || (CellDecide(h, part) == Conflict && healed.file.Some? && healed.obj.Some?
            && healed.obj.value.plain == healed.file))
  }

  lemma RecoveredCell(h: Bytes -> string, c: Cell, part: Cell, k: nat)
    requires Ideal(h) && WellLabelled(h, c) && k <= STEPS
    requires part == c || part == Settle(h, c)
             || part == CellAdvance(h, c, CellDecide(h, c), ScanDigest(h, c), Todo, k).0
    ensures WellLabelled(h, part) && Recovered(h, c, part, Settle(h, part))
    ensures part == c || part == Settle(h, c) || k == 0 || k == STEPS ==> Settle(h, part) == Settle(h, c)
    ensures part == c || part == Settle(h, c) ==> (CellDecide(h, part) == Conflict <==> CellDecide(h, c) == Conflict)
  {
    InterruptedCell(h, c, k);
    SettleConverges(h, c);
    SettleIdempotent(h, c);
    if k == 0 {
      assert CellAdvance(h, c, CellDecide(h, c), ScanDigest(h, c), Todo, k).0 == c;
    }
  }

  /* ---- the upload race ---- */

  // The file was hashed as `scanned`, then rewritten to `sent` before the upload read it, and holds
  // `now` when the next quiet pass runs.
  function Raced(h: Bytes -> string, c: Cell, scanned: Bytes, sent: Bytes, now: Bytes): Cell {
    CellRun(h, c.(file := Some(sent)), Upload, h(scanned)).0.(file := Some(now))
  }

  // The race heals in one quiet pass exactly unless the file is back at the scanned version while the
  // object holds something else; in that case every later quiet pass leaves the two sides different.
  lemma UploadRace(h: Bytes -> string, c: Cell, scanned: Bytes, sent: Bytes, now: Bytes)
    requires Ideal(h)
    ensures var d := Raced(h, c, scanned, sent, now);
            && Digest(d) == d.row == Some(h(scanned))
            && (Converged(h, Settle(h, d)) <==> (now != scanned || sent == scanned))
            && Settle(h, d).file == Some(now)
            && (now == scanned && sent != scanned ==> Settle(h, d) == d)
  {
    RunClosedForm(h, c.(file := Some(sent)), Upload, h(scanned));
    var d := Raced(h, c, scanned, sent, now);
    RunClosedForm(h, d, CellDecide(h, d), ScanDigest(h, d));
  }

  // The cell was scanned as c and has become d when the operation decided on c runs.  A file edited or
  // added in between survives exactly unless the operation is a download of other bytes; an object put
  // in between is lost, on neither side, exactly when the operation is an upload of other bytes, or a
  // deletion and no such file has come.
  lemma ChangedAfterScan(h: Bytes -> string, c: Cell, d: Cell)
    requires Runnable(d, CellDecide(h, c))
    ensures var kind := CellDecide(h, c);
            var r := CellRun(h, d, kind, ScanDigest(h, c)).0;
            && (d.file.Some? ==> (r.file == d.file <==> (kind != Download || ObjBytes(d) == d.file)))
            && (d.file.Some? && r.file != d.file ==>
                  r.file == ObjBytes(d) && (WellLabelled(h, d) ==> Mirrors(h, r, r.file.value)))
            && (ObjBytes(d).Some? ==>
                  ((r.file != ObjBytes(d) && ObjBytes(r) != ObjBytes(d))
                   <==> (d.file != ObjBytes(d) && (kind == Upload || kind == DeleteRemote))))
  {
    RunClosedForm(h, d, CellDecide(h, c), ScanDigest(h, c));
  }

  /* ---- what a pass may destroy ---- */

  // However far an operation gets, it replaces a file only if its hash is the recorded one, replaces an
  // object only if its digest is the recorded one or empty, removes an object only for a path with a
  // row and no file, and writes a row only for bytes that both sides hold at that moment.
  lemma OnlyRecordedContentIsReplaced(h: Bytes -> string, c: Cell, k: nat)
    requires Ideal(h) && k <= STEPS
    ensures var d := CellAdvance(h, c, CellDecide(h, c), ScanDigest(h, c), Todo, k).0;
            && (c.file.Some? && d.file != c.file ==> c.row == FileHash(h, c) && d.file.Some?)
            && (c.obj.Some? && d.obj.Some? && d.obj != c.obj ==>
                  c.row.Some? && (c.obj.value.digest == c.row.value || c.obj.value.digest == ""))
            && (c.obj.Some? && d.obj.None? ==> c.row.Some? && c.file.None?)
            && (d.row.Some? && d.row != c.row ==> BothHold(d, d.file) && d.row == FileHash(h, d))
  {
    var kind, digest := CellDecide(h, c), ScanDigest(h, c);
    var (c1, s1) := CellStep(h, c, kind, digest, Todo);
    var (c2, s2) := CellStep(h, c1, kind, digest, s1);
    AdvanceUnrolled(h, c, kind, digest, k);
    assert k == 0 ==> CellAdvance(h, c, kind, digest, Todo, k).0 == c;
    assert k == 1 ==> CellAdvance(h, c, kind, digest, Todo, k).0 == c1;
    assert k == 2 ==> CellAdvance(h, c, kind, digest, Todo, k).0 == c2;
  }

  // A pass replaces or deletes an object without having fetched it, leaving its bytes on neither side.
  ghost predicate LosesObject(h: Bytes -> string, c: Cell, digest: string, b: Bytes) {
    c.row.Some? && c.file != Some(b)
    && (c.file.None? || (h(c.file.value) != c.row.value && (digest == c.row.value || digest == "")))
  }

  // The exceptions to "never lose an unsynced remote version": bytes other than the recorded ones are
  // lost exactly when a row is left and either the file is gone, or the file has changed as well and the
  // object's label hides its own change, by being empty or still the recorded one.  Honest labels leave
  // only the deletions.
  lemma UnsyncedRemoteIsLost(h: Bytes -> string, c: Cell, digest: string, b: Bytes)
    requires Ideal(h) && c.obj == Some(RemoteView(digest, Some(b))) && c.row != Some(h(b))
    ensures var d := Settle(h, c);
            (d.file != Some(b) && ObjBytes(d) != Some(b)) <==> LosesObject(h, c, digest, b)
    ensures WellLabelled(h, c) ==> (LosesObject(h, c, digest, b) <==> c.file.None? && c.row.Some?)
  {
    RunClosedForm(h, c, CellDecide(h, c), ScanDigest(h, c));
  }

  /* ---- why the hypotheses are there ---- */

  // An object without a digest is fetched exactly when there is neither file nor row; with the file at
  // its recorded hash it is ignored, whatever it holds.
  lemma UnlabelledObjectIsIgnored(h: Bytes -> string, c: Cell, remote: Bytes)
    requires Ideal(h) && c.obj == Some(RemoteView("", Some(remote)))
    ensures CellDecide(h, c) == Download <==> c.file.None? && c.row.None?
    ensures c.file.Some? && c.row == FileHash(h, c) && c.file != Some(remote) ==>
              Settle(h, c) == c && !Converged(h, c) && CellDecide(h, c) == Noop
  {
    RunClosedForm(h, c, CellDecide(h, c), ScanDigest(h, c));
  }

  // A file adopted because both sides already agree gets no row, so deleting it brings it back.
  lemma AdoptedFileComesBack(h: Bytes -> string, b: Bytes)
    requires Ideal(h)
    ensures var c := Cell(Some(b), Some(RemoteView(h(b), Some(b))), None);
            Settle(h, c) == c && Settle(h, c.(file := None)).file == Some(b)
  {
    var c := Cell(Some(b), Some(RemoteView(h(b), Some(b))), None);
    RunClosedForm(h, c, Noop, h(b));
    RunClosedForm(h, c.(file := None), Download, "");
  }
}
