/**
 * What `undo_last_run` in cleaner.py does, stated as functions: restore one
 * record, replay a batch newest record first, and pop the batch from the
 * history.  The imperative version in module Cleaner is proved equal to
 * `Undo`.
 */
module Restore {
  import opened FileSystem
  import opened History
  import opened Organizer

  /** What happened to one record. */
  datatype Outcome =
    | Restored   // moved back from new_path to original_path
    | NotFound   // nothing at new_path any more
    | Occupied   // something already sits at original_path
    | Failed     // the move back raised

  /**
   * One record of the popped batch: skip when the moved file is gone;
   * otherwise recreate the original folder if needed, skip when the original
   * path is taken, else move the file back.
   */
  function RestoreOne(fs: Fs, m: MoveRecord, broken: set<Path>): (r: (Fs, Outcome))
    ensures r.1 == NotFound <==> !Exists(fs, m.newPath)
    ensures r.1 == Occupied <==> Exists(fs, m.newPath) && Exists(fs, m.originalPath)
    ensures r.1 == Failed <==> Exists(fs, m.newPath) && !Exists(fs, m.originalPath) && m.newPath in broken
    ensures r.1 == Restored ==> Files(r.0) == Files(fs) - iset{m.newPath} + iset{m.originalPath}
    ensures r.1 != Restored ==> Files(r.0) == Files(fs)
  {
    if !Exists(fs, m.newPath) then (fs, NotFound)
    else
      var fs1 := MakeDirs(fs, m.originalPath.dir);
      if Exists(fs1, m.originalPath) then (fs1, Occupied)
      else if m.newPath in broken then (fs1, Failed)
      else (Move(fs1, m.newPath, m.originalPath), Restored)
  }

  /** The state after undoing some records, and how many were restored. */
  datatype Undone = Undone(fs: Fs, restored: nat)

  /** The loop over `reversed(moves)`: the last record is undone first. */
  function RestoreAll(fs: Fs, moves: seq<MoveRecord>, broken: set<Path>): (r: Undone)
    ensures r.restored <= |moves|
    decreases |moves|
  {
    if moves == [] then Undone(fs, 0)
    else
      var (fs1, outcome) := RestoreOne(fs, moves[|moves| - 1], broken);
      var rest := RestoreAll(fs1, moves[..|moves| - 1], broken);
      Undone(rest.fs, rest.restored + if outcome == Restored then 1 else 0)
  }

  /**
   * `undo_last_run`: with an empty history nothing changes and nothing is
   * saved; otherwise the newest batch is popped, replayed, and the rest of
   * the history is saved whatever happened to its records.
   */
  function Undo(d: Disk, broken: set<Path>): (r: (Disk, nat))
    ensures LoadHistory(d.file) == [] ==> r == (d, 0)
    ensures LoadHistory(d.file) != [] ==>
      var h := LoadHistory(d.file);
      r.0.file == Stored(h[..|h| - 1]) && r.1 <= |h[|h| - 1].moves|
    ensures LoadHistory(d.file) != [] ==>
      var h := LoadHistory(d.file);
      var undone := RestoreAll(d.fs, h[|h| - 1].moves, broken);
      r.0.fs == undone.fs && r.1 == undone.restored
  {
    var history := LoadHistory(d.file);
    if history == [] then (d, 0)
    else
      var undone := RestoreAll(d.fs, history[|history| - 1].moves, broken);
      (Disk(undone.fs, Stored(history[..|history| - 1])), undone.restored)
  }

  /**
   * Undoing, in reverse, a chain of moves that took the file set `s` to the
   * current one, with no move back failing, restores every record and gives
   * back exactly `s`.
   */
  lemma {:induction false} RestoreAllReversesChain(s: iset<Path>, fs: Fs, moves: seq<MoveRecord>)
    requires ValidChain(s, moves)
    requires Files(fs) == Apply(s, moves)
    ensures Files(RestoreAll(fs, moves, {}).fs) == s
    ensures RestoreAll(fs, moves, {}).restored == |moves|
    decreases |moves|
  {
    if moves != [] {
      var init := moves[..|moves| - 1];
      var m := moves[|moves| - 1];
      var before := Apply(s, init);
      assert m.originalPath in before && m.newPath !in before;
      assert Exists(fs, m.newPath) by {
        assert m.newPath in Files(fs);
      }
      assert !Exists(fs, m.originalPath) by {
        assert m.originalPath !in Files(fs);
      }
      var (fs1, outcome) := RestoreOne(fs, m, {});
      assert outcome == Restored;
      assert Files(fs1) == before;
      RestoreAllReversesChain(s, fs1, init);
    }
  }

  /**
   * Organize followed at once by undo, when the organize moved something
   * and no move back fails: every file is back where it was, every record
   * is restored, and the history reads as it did before the organize.
   */
  lemma OrganizeThenUndo(d: Disk, cfg: Config, timestamp: string, unreadable: set<string>, broken: set<Path>)
    requires Organize(d, cfg, timestamp, unreadable, broken).1 > 0
    ensures Files(Undo(Organize(d, cfg, timestamp, unreadable, broken).0, {}).0.fs) == Files(d.fs)
    ensures Undo(Organize(d, cfg, timestamp, unreadable, broken).0, {}).1 == Organize(d, cfg, timestamp, unreadable, broken).1
    ensures LoadHistory(Undo(Organize(d, cfg, timestamp, unreadable, broken).0, {}).0.file) == LoadHistory(d.file)
  {
    var run := OrganizeRun(d.fs, cfg, unreadable, broken);
    var h := LoadHistory(d.file);
    var h1 := h + [Batch(timestamp, run.moves)];
    var d1 := Disk(run.fs, Stored(h1));
    assert Organize(d, cfg, timestamp, unreadable, broken) == (d1, |run.moves|);
    assert h1[..|h|] == h;
    var u := RestoreAll(run.fs, run.moves, {});
    assert Undo(d1, {}) == (Disk(u.fs, Stored(h)), u.restored);
    OrganizeRunSound(d.fs, cfg, unreadable, broken);
    RestoreAllReversesChain(Files(d.fs), run.fs, run.moves);
  }

  /**
   * An organize that moved nothing leaves no batch behind, so an undo right
   * after it pops the batch of the run before: it is a no-op only when the
   * history was empty.
   */
  lemma OrganizeNothingThenUndo(d: Disk, cfg: Config, timestamp: string, unreadable: set<string>, broken: set<Path>)
    requires Organize(d, cfg, timestamp, unreadable, broken).1 == 0
    ensures var d1 := Organize(d, cfg, timestamp, unreadable, broken).0;
      var h := LoadHistory(d.file);
      && (h == [] ==> Undo(d1, broken) == (d1, 0))
      && (h != [] ==>
            (Undo(d1, broken).0.file == Stored(h[..|h| - 1]) &&
             Undo(d1, broken).0.fs == RestoreAll(d1.fs, h[|h| - 1].moves, broken).fs))
  {
  }

  /** Undo on an empty history, run twice, gives the same result both times. */
  lemma UndoEmptyTwice(d: Disk, broken: set<Path>)
    requires LoadHistory(d.file) == []
    ensures Undo(Undo(d, broken).0, broken) == Undo(d, broken)
    ensures Undo(d, broken) == (d, 0)
  {
  }

  /**
   * A history file that is missing or does not parse is read as an empty
   * history: undo then changes nothing, and an organize that moves
   * something starts a new history holding only its own batch.
   */
  lemma UnreadableHistoryStartsFresh(d: Disk, cfg: Config, timestamp: string, unreadable: set<string>, broken: set<Path>)
    requires d.file.Missing? || d.file.Corrupt?
    ensures Undo(d, broken) == (d, 0)
    ensures var run := OrganizeRun(d.fs, cfg, unreadable, broken);
      Organize(d, cfg, timestamp, unreadable, broken).0.file ==
        if |run.moves| > 0 then Stored([Batch(timestamp, run.moves)]) else d.file
  {
  }
}
