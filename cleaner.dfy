/**
 * The two commands of cleaner.py as they run: step by step over the file
 * system and the history file, each proved to end in the state that the
 * function specifying it (`Organizer.Organize`, `Restore.Undo`) describes.
 */
module Cleaner {
  import opened Wrappers
  import opened Text
  import opened FileSystem
  import opened Categories
  import opened UniqueNames
  import opened History
  import opened Organizer
  import opened Restore

  /** The machine the cleaner runs on: its folders and its history file. */
  class Workspace {
    var fs: Fs
    var historyFile: HistoryFile

    constructor (fs0: Fs, file0: HistoryFile)
      ensures fs == fs0 && historyFile == file0
    {
      fs := fs0;
      historyFile := file0;
    }

    function State(): Disk
      reads this
    {
      Disk(fs, historyFile)
    }

    /**
     * `organize_files`: scan each source folder, move every file with a
     * category to its folder under a free name, record the moves, and append
     * them as one batch when there is at least one.
     */
    method OrganizeFiles(cfg: Config, timestamp: string, unreadable: set<string>, broken: set<Path>)
      returns (movedCount: nat)
      modifies this
      ensures (State(), movedCount) == Organize(old(State()), cfg, timestamp, unreadable, broken)
    {
      var history := LoadHistory(historyFile);
      var moves: seq<MoveRecord> := [];
      movedCount := 0;
      ghost var start := Run(fs, []);

      for i := 0 to |cfg.sources|
        invariant Run(fs, moves) == ProcessSources(start, cfg, cfg.sources[..i], unreadable, broken)
        invariant movedCount == |moves|
        invariant historyFile == old(historyFile)
      {
        assert cfg.sources[..i + 1][..i] == cfg.sources[..i];
        var source := cfg.sources[i];
        if source !in fs || source in unreadable {
          continue;
        }
        var items := fs[source];
        ghost var before := Run(fs, moves);

        for j := 0 to |items|
          invariant Run(fs, moves) == ProcessListing(before, cfg, source, items[..j], broken)
          invariant movedCount == |moves|
          invariant historyFile == old(historyFile)
        {
          assert items[..j + 1][..j] == items[..j];
          var filename := items[j];
          moves := OrganizeFile(cfg, source, filename, broken, moves);
          movedCount := |moves|;
        }
        assert items[..|items|] == items;
      }

      assert cfg.sources[..|cfg.sources|] == cfg.sources;
      if movedCount > 0 {
        historyFile := Stored(history + [Batch(timestamp, moves)]);
      }
    }

    /**
     * One listed file of `organize_files`: skip it unless it has a category
     * whose folder is elsewhere, create that folder if missing, pick a free
     * name there and move the file, recording the move when it succeeds.
     */
    method OrganizeFile(cfg: Config, source: string, filename: string, broken: set<Path>,
                        moves: seq<MoveRecord>) returns (moves': seq<MoveRecord>)
      modifies this
      ensures Run(fs, moves') == ProcessFile(Run(old(fs), moves), cfg, source, filename, broken)
      ensures historyFile == old(historyFile)
    {
      moves' := moves;
      if Lower(filename) in IgnoredFiles || StartsWith(filename, ".") {
        return;
      }
      var (_, ext) := SplitExt(filename);
      if Lower(ext) in IgnoredExtensions {
        return;
      }
      var category := GetCategory(ext);
      if category.None? {
        return;
      }
      var targetDir := TargetDir(cfg, category.value);
      if source == targetDir {
        return;
      }
      if targetDir !in fs {
        fs := MakeDirs(fs, targetDir);
      }
      var newFilename := UniqueFilename(fs, targetDir, filename);
      var filePath := Path(source, filename);
      var targetPath := Path(targetDir, newFilename);
      // `shutil.move` raises when the file is gone or the move is refused.
      if Exists(fs, filePath) && filePath !in broken {
        fs := Move(fs, filePath, targetPath);
        moves' := moves + [MoveRecord(filePath, targetPath)];
      }
    }

    /**
     * `undo_last_run`: pop the newest batch, move its files back newest
     * first, skipping those that are gone or whose old place is taken, and
     * save the shortened history.
     */
    method UndoLastRun(broken: set<Path>) returns (restoredCount: nat)
      modifies this
      ensures (State(), restoredCount) == Undo(old(State()), broken)
    {
      var history := LoadHistory(historyFile);
      if history == [] {
        restoredCount := 0;
        return;
      }
      var lastBatch := history[|history| - 1];
      history := history[..|history| - 1];
      var moves := lastBatch.moves;
      ghost var goal := RestoreAll(fs, moves, broken);
      assert moves[..|moves|] == moves;

      restoredCount := 0;
      var i := |moves|;
      while i > 0
        invariant 0 <= i <= |moves|
        invariant RestoreAll(fs, moves[..i], broken).fs == goal.fs
        invariant RestoreAll(fs, moves[..i], broken).restored + restoredCount == goal.restored
      {
        assert moves[..i][..i - 1] == moves[..i - 1];
        assert moves[..i][i - 1] == moves[i - 1];
        i := i - 1;
        ghost var step := RestoreOne(fs, moves[i], broken);
        ghost var rest := RestoreAll(step.0, moves[..i], broken);
        assert RestoreAll(fs, moves[..i + 1], broken) == Undone(rest.fs, rest.restored + if step.1 == Restored then 1 else 0);
        var restored := RestoreFile(moves[i], broken);
        if restored {
          restoredCount := restoredCount + 1;
        }
      }
      assert moves[..0] == [];

      historyFile := Stored(history);
    }

    /**
     * One record of `undo_last_run`: move the file back unless it is gone or
     * its old place is taken, recreating the old folder first.
     */
    method RestoreFile(move: MoveRecord, broken: set<Path>) returns (restored: bool)
      modifies this
      ensures fs == RestoreOne(old(fs), move, broken).0
      ensures restored <==> RestoreOne(old(fs), move, broken).1 == Restored
      ensures historyFile == old(historyFile)
    {
      restored := false;
      if Exists(fs, move.newPath) {
        fs := MakeDirs(fs, move.originalPath.dir);
        if Exists(fs, move.originalPath) {
          return;
        }
        // `shutil.move` back raises for the paths in `broken`.
        if move.newPath !in broken {
          fs := Move(fs, move.newPath, move.originalPath);
          restored := true;
        }
      }
    }
  }
}
