/**
 * What `organize_files` in cleaner.py does to the file system and to the
 * history, stated as functions: one file, one source listing, all sources,
 * and the whole run with its history update.  The imperative version in
 * module Cleaner is proved equal to `Organize`.
 */
module Organizer {
  import opened Wrappers
  import opened Text
  import opened FileSystem
  import opened Categories
  import opened UniqueNames
  import opened History

  /**
   * The folders the organizer scans, in scan order, and the folder each
   * category is sent to.
   */
  datatype Config = Config(sources: seq<string>, pictures: string, videos: string, documents: string, music: string)

  function TargetDir(cfg: Config, c: Category): string {
    match c
    case Images => cfg.pictures
    case Videos => cfg.videos
    case Documents => cfg.documents
    case Music => cfg.music
  }

  predicate IsTarget(cfg: Config, d: string) {
    d == cfg.pictures || d == cfg.videos || d == cfg.documents || d == cfg.music
  }

  /** The state of a run: the file system and the moves recorded so far. */
  datatype Run = Run(fs: Fs, moves: seq<MoveRecord>)

  /**
   * The folder a file found in `source` is to be moved to, or None when the
   * organizer leaves it alone: an ignored name or extension, no category, or
   * a category whose folder is the source itself.
   */
  function Destination(cfg: Config, source: string, filename: string): (r: Option<string>)
    ensures r.Some? <==>
      && !IsIgnored(filename)
      && GetCategory(SplitExt(filename).1).Some?
      && TargetDir(cfg, GetCategory(SplitExt(filename).1).value) != source
    ensures r.Some? ==> r.value == TargetDir(cfg, GetCategory(SplitExt(filename).1).value)
  {
    if IsIgnored(filename) then None
    else
      match GetCategory(SplitExt(filename).1)
      case None => None
      case Some(c) => if TargetDir(cfg, c) == source then None else Some(TargetDir(cfg, c))
  }

  /** `g` is `f` itself or one of its numbered renamings. */
  ghost predicate IsRenaming(f: string, g: string) {
    g == f || exists k :: 1 <= k && g == Candidate(f, k)
  }

  /** The file system `after` is `before` with the one move `m` done. */
  ghost predicate Moved(before: Fs, after: Fs, m: MoveRecord) {
    && Exists(before, m.originalPath)
    && !Exists(before, m.newPath)
    && Files(after) == Files(before) - iset{m.originalPath} + iset{m.newPath}
  }

  /** `r` is `run` with no file moved, or with exactly one more move recorded and done. */
  ghost predicate Extends(run: Run, r: Run) {
    || (r.moves == run.moves && Files(r.fs) == Files(run.fs))
    || (&& |r.moves| == |run.moves| + 1
        && r.moves[..|run.moves|] == run.moves
        && Moved(run.fs, r.fs, r.moves[|run.moves|]))
  }

  /**
   * The body of the inner loop of `organize_files` for one listed file:
   * create the target folder if missing, pick a free name, move, record.
   * A move that raises (the file has vanished, or `broken` says so) records
   * nothing.
   */
  function ProcessFile(run: Run, cfg: Config, source: string, filename: string, broken: set<Path>): (r: Run)
    ensures Extends(run, r)
    ensures Destination(cfg, source, filename).None? ==> r == run
    ensures r.moves != run.moves <==>
      && Destination(cfg, source, filename).Some?
      && Exists(run.fs, Path(source, filename))
      && Path(source, filename) !in broken
    ensures r.moves != run.moves ==>
      var target := Destination(cfg, source, filename).value;
      r.moves[|run.moves|] == MoveRecord(Path(source, filename), Path(target, UniqueName(Entries(run.fs, target), filename)))
    ensures forall d :: d != source && Some(d) != Destination(cfg, source, filename) ==> SameFolder(run.fs, r.fs, d)
  {
    match Destination(cfg, source, filename)
    case None => run
    case Some(target) =>
      var fs := MakeDirs(run.fs, target);
      var from := Path(source, filename);
      assert Entries(fs, target) == Entries(run.fs, target);
      var to := Path(target, UniqueName(Entries(fs, target), filename));
      if !Exists(fs, from) || from in broken then Run(fs, run.moves)
      else
        var moves := run.moves + [MoveRecord(from, to)];
        assert |moves| == |run.moves| + 1 && moves[..|run.moves|] == run.moves;
        Run(Move(fs, from, to), moves)
  }

  /**
   * A file whose name is on the ignore list, starts with a dot, or whose
   * extension is ignored is left where it is and nothing is recorded.
   */
  lemma IgnoredStaysPut(run: Run, cfg: Config, source: string, filename: string, broken: set<Path>)
    requires || Lower(filename) in IgnoredFiles
             || StartsWith(filename, ".")
             || Lower(SplitExt(filename).1) in IgnoredExtensions
    ensures ProcessFile(run, cfg, source, filename, broken) == run
  {
  }

  /**
   * The inner loop over one source's listing, in listing order: earlier
   * records are kept, and each file listed adds at most one record, of a
   * move out of `source` of a listed name.
   */
  function ProcessListing(run: Run, cfg: Config, source: string, items: seq<string>, broken: set<Path>): (r: Run)
    ensures |run.moves| <= |r.moves| <= |run.moves| + |items|
    ensures r.moves[..|run.moves|] == run.moves
    ensures forall i :: |run.moves| <= i < |r.moves| ==>
      r.moves[i].originalPath.dir == source && r.moves[i].originalPath.name in items
    decreases |items|
  {
    if items == [] then run
    else
      var init := items[..|items| - 1];
      var mid := ProcessListing(run, cfg, source, init, broken);
      var r := ProcessFile(mid, cfg, source, items[|items| - 1], broken);
      assert forall x :: x in init ==> x in items;
      PrefixOfPrefix(run.moves, mid.moves, r.moves);
      r
  }

  /** A prefix of a prefix is a prefix, and the records between are shared. */
  lemma PrefixOfPrefix(a: seq<MoveRecord>, b: seq<MoveRecord>, c: seq<MoveRecord>)
    requires |a| <= |b| <= |c|
    requires b[..|a|] == a && c[..|b|] == b
    ensures c[..|a|] == a
    ensures forall i :: |a| <= i < |b| ==> c[i] == b[i]
  {
    assert c[..|a|] == c[..|b|][..|a|];
    assert forall i :: |a| <= i < |b| ==> c[i] == c[..|b|][i];
  }

  /**
   * One source folder: skipped when missing or when listing it is refused;
   * otherwise its files, as listed on arrival, are processed in turn.
   * Earlier records are kept and the new ones are of moves out of `source`.
   */
  function VisitSource(run: Run, cfg: Config, source: string, unreadable: set<string>, broken: set<Path>): (r: Run)
    ensures source !in run.fs || source in unreadable ==> r == run
    ensures |run.moves| <= |r.moves| && r.moves[..|run.moves|] == run.moves
    ensures forall i :: |run.moves| <= i < |r.moves| ==> r.moves[i].originalPath.dir == source
  {
    if source !in run.fs || source in unreadable then run
    else ProcessListing(run, cfg, source, run.fs[source], broken)
  }

  /**
   * The outer loop over the source folders, in order: earlier records are
   * kept and every new one is of a move out of one of `sources`.
   */
  function ProcessSources(run: Run, cfg: Config, sources: seq<string>, unreadable: set<string>, broken: set<Path>): (r: Run)
    ensures |run.moves| <= |r.moves| && r.moves[..|run.moves|] == run.moves
    ensures forall i :: |run.moves| <= i < |r.moves| ==> r.moves[i].originalPath.dir in sources
    decreases |sources|
  {
    if sources == [] then run
    else
      var init := sources[..|sources| - 1];
      var mid := ProcessSources(run, cfg, init, unreadable, broken);
      var r := VisitSource(mid, cfg, sources[|sources| - 1], unreadable, broken);
      assert forall x :: x in init ==> x in sources;
      PrefixOfPrefix(run.moves, mid.moves, r.moves);
      r
  }

  /**
   * All moves of one `organize_files` run, from an empty record list: each
   * takes a file out of a source folder into a category folder other than
   * the one it was in.
   */
  function OrganizeRun(fs: Fs, cfg: Config, unreadable: set<string>, broken: set<Path>): (r: Run)
    ensures forall m :: m in r.moves ==>
      m.originalPath.dir in cfg.sources && IsTarget(cfg, m.newPath.dir) && m.newPath.dir != m.originalPath.dir
  {
    var r := ProcessSources(Run(fs, []), cfg, cfg.sources, unreadable, broken);
    SourcesProper(fs, cfg, unreadable, broken);
    r
  }

  /** Every move of a run from an empty record list is proper and starts in a source folder. */
  lemma SourcesProper(fs: Fs, cfg: Config, unreadable: set<string>, broken: set<Path>)
    ensures forall m :: m in ProcessSources(Run(fs, []), cfg, cfg.sources, unreadable, broken).moves ==>
      Proper(cfg, m) && m.originalPath.dir in cfg.sources
  {
    var start := Run(fs, []);
    assert Sound(cfg, cfg.sources, start, start);
    ProcessSourcesSound(cfg, cfg.sources, start, start, cfg.sources, unreadable, broken);
    var r := ProcessSources(start, cfg, cfg.sources, unreadable, broken);
    assert r.moves[0..] == r.moves;
    ProperListMembers(cfg, cfg.sources, r.moves);
  }

  /**
   * `organize_files`: the new disk and the number of files moved.  The
   * history gains one batch, holding every move, only when something moved;
   * otherwise the history file is not written.
   */
  function Organize(d: Disk, cfg: Config, timestamp: string, unreadable: set<string>, broken: set<Path>): (r: (Disk, nat))
    ensures r.1 == 0 ==> r.0.file == d.file
    ensures r.1 > 0 ==>
      var h := LoadHistory(d.file);
      && r.0.file.Stored?
      && |r.0.file.batches| == |h| + 1
      && r.0.file.batches[..|h|] == h
      && r.0.file.batches[|h|].timestamp == timestamp
      && r.0.file.batches[|h|].moves == OrganizeRun(d.fs, cfg, unreadable, broken).moves
    ensures var run := OrganizeRun(d.fs, cfg, unreadable, broken);
      r.0.fs == run.fs && r.1 == |run.moves|
  {
    var run := OrganizeRun(d.fs, cfg, unreadable, broken);
    if |run.moves| > 0 then
      (Disk(run.fs, Stored(LoadHistory(d.file) + [Batch(timestamp, run.moves)])), |run.moves|)
    else
      (Disk(run.fs, d.file), 0)
  }

  /**
   * A recorded move is one the rules allow: the file is not ignored, has a
   * category, goes to that category's folder, which is not where it was,
   * under its own name or a numbered renaming of it.
   */
  ghost predicate Proper(cfg: Config, m: MoveRecord) {
    var name := m.originalPath.name;
    var category := GetCategory(SplitExt(name).1);
    && !IsIgnored(name)
    && category.Some?
    && m.newPath.dir == TargetDir(cfg, category.value)
    && m.newPath.dir != m.originalPath.dir
    && IsRenaming(name, m.newPath.name)
  }

  /**
   * What holds of a run `r` that continued from `start`: earlier records are
   * kept, the new ones form a chain of moves that explains the new file set,
   * each is proper and comes from one of `allowed`, and folders that are
   * neither sources nor targets are untouched.
   */
  ghost predicate Sound(cfg: Config, allowed: seq<string>, start: Run, r: Run) {
    Chained(start, r) && AllProper(cfg, allowed, start, r) && Framed(cfg, allowed, start, r)
  }

  /** Earlier records are kept; the new ones replay `start`'s files into `r`'s. */
  ghost predicate Chained(start: Run, r: Run) {
    && |start.moves| <= |r.moves|
    && r.moves[..|start.moves|] == start.moves
    && ValidChain(Files(start.fs), r.moves[|start.moves|..])
    && Files(r.fs) == Apply(Files(start.fs), r.moves[|start.moves|..])
  }

  ghost predicate AllProper(cfg: Config, allowed: seq<string>, start: Run, r: Run) {
    |start.moves| <= |r.moves| && ProperList(cfg, allowed, r.moves[|start.moves|..])
  }

  /** Every move in the list is proper and starts in one of `allowed`. */
  ghost predicate ProperList(cfg: Config, allowed: seq<string>, moves: seq<MoveRecord>)
    decreases |moves|
  {
    moves == [] ||
    var m := moves[|moves| - 1];
    ProperList(cfg, allowed, moves[..|moves| - 1]) && Proper(cfg, m) && m.originalPath.dir in allowed
  }

  lemma {:induction false} ProperListMembers(cfg: Config, allowed: seq<string>, moves: seq<MoveRecord>)
    requires ProperList(cfg, allowed, moves)
    ensures forall m :: m in moves ==> Proper(cfg, m) && m.originalPath.dir in allowed
    decreases |moves|
  {
    if moves != [] {
      var init := moves[..|moves| - 1];
      ProperListMembers(cfg, allowed, init);
      assert moves == init + [moves[|moves| - 1]];
    }
  }

  ghost predicate Framed(cfg: Config, allowed: seq<string>, start: Run, r: Run) {
    forall d :: d !in allowed && !IsTarget(cfg, d) ==> SameFolder(start.fs, r.fs, d)
  }

  /** The record `ProcessFile` adds, if any, is proper and starts in `source`. */
  lemma ProcessFileProper(run: Run, cfg: Config, source: string, filename: string, broken: set<Path>)
    requires ProcessFile(run, cfg, source, filename, broken).moves != run.moves
    ensures var m := ProcessFile(run, cfg, source, filename, broken).moves[|run.moves|];
      Proper(cfg, m) && m.originalPath.dir == source
  {
    var target := Destination(cfg, source, filename).value;
    var newName := UniqueName(Entries(run.fs, target), filename);
    assert IsRenaming(filename, newName);
  }

  lemma ExtendsChained(start: Run, run: Run, r: Run)
    requires Chained(start, run)
    requires Extends(run, r)
    ensures Chained(start, r)
  {
    var k := |start.moves|;
    if r.moves != run.moves {
      var m := r.moves[|run.moves|];
      assert r.moves == run.moves + [m];
      assert r.moves[k..] == run.moves[k..] + [m];
      ChainSnoc(Files(start.fs), run.moves[k..], m);
    }
  }

  lemma ExtendsProper(cfg: Config, allowed: seq<string>, start: Run, run: Run, r: Run, source: string)
    requires AllProper(cfg, allowed, start, run)
    requires source in allowed
    requires |r.moves| == |run.moves| + 1 && r.moves[..|run.moves|] == run.moves
    requires Proper(cfg, r.moves[|run.moves|]) && r.moves[|run.moves|].originalPath.dir == source
    ensures AllProper(cfg, allowed, start, r)
  {
    SuffixSnoc(run.moves, r.moves, |start.moves|);
    ProperListSnoc(cfg, allowed, run.moves[|start.moves|..], r.moves[|run.moves|]);
  }

  lemma SuffixSnoc(moves: seq<MoveRecord>, longer: seq<MoveRecord>, k: nat)
    requires k <= |moves|
    requires |longer| == |moves| + 1 && longer[..|moves|] == moves
    ensures longer[k..] == moves[k..] + [longer[|moves|]]
  {
    assert longer == moves + [longer[|moves|]];
  }

  lemma ProperListSnoc(cfg: Config, allowed: seq<string>, moves: seq<MoveRecord>, m: MoveRecord)
    requires ProperList(cfg, allowed, moves)
    requires Proper(cfg, m) && m.originalPath.dir in allowed
    ensures ProperList(cfg, allowed, moves + [m])
  {
    assert (moves + [m])[..|moves|] == moves;
  }

  /** One more step that is a proper move from `source`, or no move, keeps a run sound. */
  lemma ExtendsSound(cfg: Config, allowed: seq<string>, start: Run, run: Run, r: Run, source: string)
    requires Sound(cfg, allowed, start, run)
    requires source in allowed
    requires Extends(run, r)
    requires r.moves != run.moves ==>
      Proper(cfg, r.moves[|run.moves|]) && r.moves[|run.moves|].originalPath.dir == source
    requires forall d :: d != source && !IsTarget(cfg, d) ==> SameFolder(run.fs, r.fs, d)
    ensures Sound(cfg, allowed, start, r)
  {
    ExtendsChained(start, run, r);
    if r.moves != run.moves {
      ExtendsProper(cfg, allowed, start, run, r, source);
    }
  }

  lemma ProcessFileSound(cfg: Config, allowed: seq<string>, start: Run, run: Run,
                         source: string, filename: string, broken: set<Path>)
    requires Sound(cfg, allowed, start, run)
    requires source in allowed
    ensures Sound(cfg, allowed, start, ProcessFile(run, cfg, source, filename, broken))
  {
    var r := ProcessFile(run, cfg, source, filename, broken);
    if r.moves != run.moves {
      ProcessFileProper(run, cfg, source, filename, broken);
    }
    ExtendsSound(cfg, allowed, start, run, r, source);
  }

  lemma {:induction false} ProcessListingSound(cfg: Config, allowed: seq<string>, start: Run, run: Run,
                                               source: string, items: seq<string>, broken: set<Path>)
    requires Sound(cfg, allowed, start, run)
    requires source in allowed
    ensures Sound(cfg, allowed, start, ProcessListing(run, cfg, source, items, broken))
    decreases |items|
  {
    if items != [] {
      var init := items[..|items| - 1];
      ProcessListingSound(cfg, allowed, start, run, source, init, broken);
      ProcessFileSound(cfg, allowed, start, ProcessListing(run, cfg, source, init, broken),
                       source, items[|items| - 1], broken);
    }
  }

  lemma {:induction false} ProcessSourcesSound(cfg: Config, allowed: seq<string>, start: Run, run: Run,
                                               sources: seq<string>, unreadable: set<string>, broken: set<Path>)
    requires Sound(cfg, allowed, start, run)
    requires forall s :: s in sources ==> s in allowed
    ensures Sound(cfg, allowed, start, ProcessSources(run, cfg, sources, unreadable, broken))
    decreases |sources|
  {
    if sources != [] {
      var init := sources[..|sources| - 1];
      var source := sources[|sources| - 1];
      ProcessSourcesSound(cfg, allowed, start, run, init, unreadable, broken);
      var mid := ProcessSources(run, cfg, init, unreadable, broken);
      if source in mid.fs && source !in unreadable {
        ProcessListingSound(cfg, allowed, start, mid, source, mid.fs[source], broken);
      }
    }
  }

  /**
   * The moves of an organize run: each is proper and starts in a source
   * folder; replayed in order they take present files to free paths and
   * explain exactly the new set of files; folders that are neither sources
   * nor targets are untouched.
   */
  lemma OrganizeRunSound(fs: Fs, cfg: Config, unreadable: set<string>, broken: set<Path>)
    ensures var run := OrganizeRun(fs, cfg, unreadable, broken);
      && ValidChain(Files(fs), run.moves)
      && Files(run.fs) == Apply(Files(fs), run.moves)
      && (forall m :: m in run.moves ==> Proper(cfg, m) && m.originalPath.dir in cfg.sources)
      && (forall d :: d !in cfg.sources && !IsTarget(cfg, d) ==> SameFolder(fs, run.fs, d))
  {
    var start := Run(fs, []);
    assert Sound(cfg, cfg.sources, start, start);
    ProcessSourcesSound(cfg, cfg.sources, start, start, cfg.sources, unreadable, broken);
    var run := OrganizeRun(fs, cfg, unreadable, broken);
    assert run.moves[0..] == run.moves;
    ProperListMembers(cfg, cfg.sources, run.moves);
  }

  /**
   * A file the organizer has put in place is not moved again: it keeps its
   * extension, so its category sends it to the folder it is already in.
   */
  lemma ProperMoveIsFinal(cfg: Config, m: MoveRecord)
    requires Proper(cfg, m)
    ensures Destination(cfg, m.newPath.dir, m.newPath.name).None?
  {
    var name := m.originalPath.name;
    if m.newPath.name != name {
      var k :| 1 <= k && m.newPath.name == Candidate(name, k);
      CandidateKeepsExtension(name, k);
    }
  }
}
