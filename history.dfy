/**
 * The undo log of cleaner.py: each run that moved something appends one
 * batch of move records, oldest batch first.  The log file may be missing
 * or unreadable, in which case it reads as an empty history.
 */
module History {
  import opened FileSystem

  datatype MoveRecord = MoveRecord(originalPath: Path, newPath: Path)

  datatype Batch = Batch(timestamp: string, moves: seq<MoveRecord>)

  /** What the history file holds: nothing, text that is not JSON, or a log. */
  datatype HistoryFile = Missing | Corrupt | Stored(batches: seq<Batch>)

  /** `load_history`: a missing or corrupt file is an empty history. */
  function LoadHistory(f: HistoryFile): seq<Batch> {
    match f
    case Stored(batches) => batches
    case _ => []
  }

  /** Everything the two commands read and write. */
  datatype Disk = Disk(fs: Fs, file: HistoryFile)

  /** The file paths present after replaying `moves` on the paths in `s`. */
  ghost function Apply(s: iset<Path>, moves: seq<MoveRecord>): iset<Path>
    decreases |moves|
  {
    if moves == [] then s
    else
      var m := moves[|moves| - 1];
      Apply(s, moves[..|moves| - 1]) - iset{m.originalPath} + iset{m.newPath}
  }

  /**
   * Each move in `moves`, replayed in order from `s`, takes a file that is
   * present to a path that is free.
   */
  ghost predicate ValidChain(s: iset<Path>, moves: seq<MoveRecord>)
    decreases |moves|
  {
    moves == [] ||
    var m := moves[|moves| - 1];
    var before := Apply(s, moves[..|moves| - 1]);
    ValidChain(s, moves[..|moves| - 1]) && m.originalPath in before && m.newPath !in before
  }

  /** Extending a chain by one move. */
  lemma ChainSnoc(s: iset<Path>, moves: seq<MoveRecord>, m: MoveRecord)
    ensures Apply(s, moves + [m]) == Apply(s, moves) - iset{m.originalPath} + iset{m.newPath}
    ensures ValidChain(s, moves + [m]) <==>
      ValidChain(s, moves) && m.originalPath in Apply(s, moves) && m.newPath !in Apply(s, moves)
  {
    assert (moves + [m])[..|moves|] == moves;
  }
}
