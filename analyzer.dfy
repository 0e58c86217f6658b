/**
 * `analyze_directory` in analyser.py: one pass over a directory walk that
 * counts files and folders, files per depth, files per extension, files per
 * naming pattern, and files not modified for six months.
 */
module Analyzer {
  import opened Wrappers
  import opened Text

  /** A file seen by the walk; `mtime` is None when reading it raised. */
  datatype FileEntry = FileEntry(name: string, mtime: Option<int>)

  /**
   * One folder the walk visits: its path relative to the walk's root ("."
   * for the root itself), how many subfolders it has, and its files.
   */
  datatype Node = Node(relPath: string, subdirs: nat, files: seq<FileEntry>)

  /** The path separator of a POSIX host. */
  const Sep: char := '/'

  /** The age beyond which a file counts as old: six 30-day months, in seconds. */
  const AgeLimit: int := 6 * 30 * 24 * 60 * 60

  /** The root has depth 0; any other folder one more than its separators. */
  function Depth(relPath: string): (d: nat)
    ensures d == 0 <==> relPath == "."
  {
    if relPath == "." then 0 else CountChar(relPath, Sep) + 1
  }

  /** `os.path.relpath` of a subfolder `name` of the folder at `parent`. */
  function ChildPath(parent: string, name: string): string {
    if parent == "." then name else parent + [Sep] + name
  }

  /** A subfolder lies exactly one level below its parent folder. */
  lemma ChildDepth(parent: string, name: string)
    requires name != "" && name != "." && Sep !in name
    ensures Depth(ChildPath(parent, name)) == Depth(parent) + 1
  {
    if parent != "." {
      CountCharAppend(parent, [Sep] + name, Sep);
      CountCharAppend([Sep], name, Sep);
      assert parent + [Sep] + name == parent + ([Sep] + name);
      assert CountChar([Sep], Sep) == 1 by {
        assert [Sep][..0] == [];
      }
    }
  }

  datatype Pattern = CameraDefault | Screenshot | DuplicateCopy | Dated

  /** The order in which the patterns are tried. */
  function Rank(p: Pattern): nat {
    match p
    case CameraDefault => 0
    case Screenshot => 1
    case DuplicateCopy => 2
    case Dated => 3
  }

  /** The test each pattern makes of a file name, on its own. */
  predicate Matches(p: Pattern, name: string) {
    match p
    case CameraDefault => StartsWith(name, "IMG_") || StartsWith(name, "DSC_")
    case Screenshot => StartsWith(name, "Screenshot_")
    case DuplicateCopy => Contains(name, " (1)") || Contains(name, " Copy")
    case Dated => |name| > 0 && IsDigit(name[0]) && '-' in name
  }

  /** The label a file name gets: the first pattern, in rank order, that it matches. */
  function Classify(name: string): (r: Option<Pattern>)
    ensures r.Some? ==> Matches(r.value, name) && forall q :: Rank(q) < Rank(r.value) ==> !Matches(q, name)
    ensures r.None? <==> forall q :: !Matches(q, name)
  {
    if StartsWith(name, "IMG_") || StartsWith(name, "DSC_") then Some(CameraDefault)
    else if StartsWith(name, "Screenshot_") then Some(Screenshot)
    else if Contains(name, " (1)") || Contains(name, " Copy") then Some(DuplicateCopy)
    else if |name| > 0 && IsDigit(name[0]) && '-' in name then Some(Dated)
    else None
  }

  /** What `analyze_directory` returns for a folder that exists. */
  datatype Stats = Stats(
    totalFiles: nat,
    totalFolders: nat,
    looseFiles: nat,
    extensions: map<string, nat>,
    depthDistribution: map<nat, nat>,
    namingPatterns: map<Pattern, nat>,
    oldFiles: nat)

  const EmptyStats: Stats := Stats(0, 0, 0, map[], map[], map[], 0)

  /** A `Counter` read: a missing key counts 0. */
  function Get<K>(m: map<K, nat>, k: K): nat {
    if k in m then m[k] else 0
  }

  /** A `Counter` update `m[k] += n`, which creates the key even when `n` is 0. */
  function Inc<K>(m: map<K, nat>, k: K, n: nat): map<K, nat> {
    m[k := Get(m, k) + n]
  }

  /** The total of a counter's values. */
  ghost function SumValues<K>(m: map<K, nat>): nat
    decreases |m.Keys|
  {
    if m == map[] then 0
    else
      var k :| k in m;
      assert (m - {k}).Keys == m.Keys - {k};
      m[k] + SumValues(m - {k})
  }

  lemma SumRemove<K>(m: map<K, nat>, k: K)
    requires k in m
    ensures SumValues(m) == m[k] + SumValues(m - {k})
    decreases |m.Keys|
  {
    var j :| j in m && SumValues(m) == m[j] + SumValues(m - {j});
    if j != k {
      assert (m - {j}).Keys == m.Keys - {j};
      SumRemove(m - {j}, k);
      SumRemove(m - {k}, j);
      assert m - {j} - {k} == m - {k} - {j};
    }
  }

  /** Adding `n` to one key adds `n` to the total. */
  lemma SumInc<K>(m: map<K, nat>, k: K, n: nat)
    ensures SumValues(Inc(m, k, n)) == SumValues(m) + n
  {
    var r := Inc(m, k, n);
    SumRemove(r, k);
    if k in m {
      SumRemove(m, k);
      assert r - {k} == m - {k};
    } else {
      assert r - {k} == m;
    }
  }

  /** A total is positive exactly when some key has a positive count. */
  lemma {:induction false} SumPositive<K>(m: map<K, nat>)
    ensures SumValues(m) > 0 <==> exists k :: k in m && m[k] > 0
    decreases |m.Keys|
  {
    if m != map[] {
      var k :| k in m;
      var rest := m - {k};
      SumRemove(m, k);
      assert rest.Keys == m.Keys - {k};
      SumPositive(rest);
      if SumValues(m) > 0 && m[k] == 0 {
        var j :| j in rest && rest[j] > 0;
        assert j in m && m[j] > 0;
      } else if SumValues(m) == 0 {
        forall j | j in m
          ensures m[j] == 0
        {
          if j != k {
            assert j in rest && rest[j] == m[j];
          }
        }
      }
    }
  }

  /** Whether a file counts as old against the cutoff; an unreadable time never does. */
  predicate IsOld(f: FileEntry, cutoff: int) {
    f.mtime.Some? && f.mtime.value < cutoff
  }

  /** The key a file is counted under in the extension counter. */
  function ExtKey(name: string): string {
    Lower(SplitExt(name).1)
  }

  /**
   * The inner loop body for one file: one more file, one more under its
   * lowercased extension, one more old file when its time is readable and
   * before the cutoff, and one more under its naming label when it has one.
   */
  function AddFile(s: Stats, f: FileEntry, cutoff: int): (r: Stats)
    ensures r.totalFiles == s.totalFiles + 1
    ensures r.totalFolders == s.totalFolders && r.looseFiles == s.looseFiles
    ensures r.depthDistribution == s.depthDistribution
    ensures r.oldFiles == s.oldFiles + (if IsOld(f, cutoff) then 1 else 0)
    ensures forall e :: Get(r.extensions, e) == Get(s.extensions, e) + (if e == ExtKey(f.name) then 1 else 0)
    ensures forall p :: Get(r.namingPatterns, p) == Get(s.namingPatterns, p) + (if Classify(f.name) == Some(p) then 1 else 0)
  {
    var s1 := s.(totalFiles := s.totalFiles + 1,
                 extensions := Inc(s.extensions, ExtKey(f.name), 1));
    var s2 := if IsOld(f, cutoff) then s1.(oldFiles := s1.oldFiles + 1) else s1;
    match Classify(f.name)
    case None => s2
    case Some(p) => s2.(namingPatterns := Inc(s2.namingPatterns, p, 1))
  }

  /** The inner loop over one folder's files. */
  function AddFiles(s: Stats, files: seq<FileEntry>, cutoff: int): Stats
    decreases |files|
  {
    if files == [] then s
    else AddFile(AddFiles(s, files[..|files| - 1], cutoff), files[|files| - 1], cutoff)
  }

  /** The per-folder counts taken before the folder's files are looked at. */
  function EnterNode(s: Stats, node: Node): Stats {
    var depth := Depth(node.relPath);
    var s1 := s.(totalFolders := s.totalFolders + node.subdirs,
                 depthDistribution := Inc(s.depthDistribution, depth, |node.files|));
    if depth == 0 then s1.(looseFiles := s1.looseFiles + |node.files|) else s1
  }

  function VisitNode(s: Stats, node: Node, cutoff: int): Stats {
    AddFiles(EnterNode(s, node), node.files, cutoff)
  }

  /** The outer loop over the walk, in walk order; it keeps the counters consistent. */
  function WalkStats(s: Stats, walk: seq<Node>, cutoff: int): (r: Stats)
    ensures Consistent(s) ==> Consistent(r)
    decreases |walk|
  {
    if walk == [] then s
    else
      var previous := WalkStats(s, walk[..|walk| - 1], cutoff);
      VisitNodeConsistent(previous, walk[|walk| - 1], cutoff);
      VisitNode(previous, walk[|walk| - 1], cutoff)
  }

  /**
   * `analyze_directory`: None exactly for a missing root, else the counts of
   * the walk, which are consistent.
   */
  function Analyze(rootExists: bool, walk: seq<Node>, now: int): (r: Option<Stats>)
    ensures r.None? <==> !rootExists
    ensures r.Some? ==> Consistent(r.value)
    ensures r.Some? ==> r.value == WalkStats(EmptyStats, walk, now - AgeLimit)
  {
    if !rootExists then None
    else
      assert Consistent(EmptyStats) by {
        assert SumValues(EmptyStats.depthDistribution) == 0;
        assert SumValues(EmptyStats.extensions) == 0;
        assert SumValues(EmptyStats.namingPatterns) == 0;
      }
      Some(WalkStats(EmptyStats, walk, now - AgeLimit))
  }

  /**
   * How the counters of a result fit together: every file is counted once
   * per depth and once per extension, the loose files are those at depth 0,
   * and no file gets more than one pattern or is old twice.
   */
  ghost predicate Consistent(s: Stats) {
    && s.totalFiles == SumValues(s.depthDistribution)
    && s.totalFiles == SumValues(s.extensions)
    && s.looseFiles == Get(s.depthDistribution, 0)
    && SumValues(s.namingPatterns) <= s.totalFiles
    && s.oldFiles <= s.totalFiles
  }

  lemma AddFileSums(s: Stats, f: FileEntry, cutoff: int)
    ensures SumValues(AddFile(s, f, cutoff).extensions) == SumValues(s.extensions) + 1
    ensures SumValues(AddFile(s, f, cutoff).namingPatterns) <= SumValues(s.namingPatterns) + 1
  {
    SumInc(s.extensions, ExtKey(f.name), 1);
    match Classify(f.name)
    case None =>
    case Some(p) => SumInc(s.namingPatterns, p, 1);
  }

  /** The files of one folder add exactly their number to the totals. */
  lemma {:induction false} AddFilesSums(s: Stats, files: seq<FileEntry>, cutoff: int)
    ensures var r := AddFiles(s, files, cutoff);
      && r.totalFiles == s.totalFiles + |files|
      && r.totalFolders == s.totalFolders && r.looseFiles == s.looseFiles
      && r.depthDistribution == s.depthDistribution
      && SumValues(r.extensions) == SumValues(s.extensions) + |files|
      && SumValues(r.namingPatterns) <= SumValues(s.namingPatterns) + |files|
      && r.oldFiles <= s.oldFiles + |files|
    decreases |files|
  {
    if files != [] {
      var init := files[..|files| - 1];
      AddFilesSums(s, init, cutoff);
      AddFileSums(AddFiles(s, init, cutoff), files[|files| - 1], cutoff);
    }
  }

  /** Visiting one more folder keeps the counters consistent. */
  lemma VisitNodeConsistent(s: Stats, node: Node, cutoff: int)
    ensures Consistent(s) ==> Consistent(VisitNode(s, node, cutoff))
  {
    var e := EnterNode(s, node);
    SumInc(s.depthDistribution, Depth(node.relPath), |node.files|);
    AddFilesSums(e, node.files, cutoff);
  }

  /** The number of subfolders the walk reports, over all folders. */
  function SubdirTotal(walk: seq<Node>): nat
    decreases |walk|
  {
    if walk == [] then 0 else SubdirTotal(walk[..|walk| - 1]) + walk[|walk| - 1].subdirs
  }

  /** The number of files the walk finds at depth `d`. */
  function FilesAtDepth(walk: seq<Node>, d: nat): nat
    decreases |walk|
  {
    if walk == [] then 0
    else
      var node := walk[|walk| - 1];
      FilesAtDepth(walk[..|walk| - 1], d) + if Depth(node.relPath) == d then |node.files| else 0
  }

  /** The number of old files the walk finds. */
  function OldInFiles(files: seq<FileEntry>, cutoff: int): nat
    decreases |files|
  {
    if files == [] then 0
    else OldInFiles(files[..|files| - 1], cutoff) + if IsOld(files[|files| - 1], cutoff) then 1 else 0
  }

  function OldInWalk(walk: seq<Node>, cutoff: int): nat
    decreases |walk|
  {
    if walk == [] then 0 else OldInWalk(walk[..|walk| - 1], cutoff) + OldInFiles(walk[|walk| - 1].files, cutoff)
  }

  /** The number of files whose lowercased extension is `e`. */
  function ExtInFiles(files: seq<FileEntry>, e: string): nat
    decreases |files|
  {
    if files == [] then 0
    else ExtInFiles(files[..|files| - 1], e) + if ExtKey(files[|files| - 1].name) == e then 1 else 0
  }

  function FilesWithExt(walk: seq<Node>, e: string): nat
    decreases |walk|
  {
    if walk == [] then 0 else FilesWithExt(walk[..|walk| - 1], e) + ExtInFiles(walk[|walk| - 1].files, e)
  }

  /** The number of files whose name gets the label `p`. */
  function LabelledInFiles(files: seq<FileEntry>, p: Pattern): nat
    decreases |files|
  {
    if files == [] then 0
    else LabelledInFiles(files[..|files| - 1], p) + if Classify(files[|files| - 1].name) == Some(p) then 1 else 0
  }

  function FilesLabelled(walk: seq<Node>, p: Pattern): nat
    decreases |walk|
  {
    if walk == [] then 0 else FilesLabelled(walk[..|walk| - 1], p) + LabelledInFiles(walk[|walk| - 1].files, p)
  }

  /**
   * A folder's files add to the old count, to extension `e` and to label
   * `p` exactly the number of their files that are old, have that
   * extension, or get that label; folders and depths are not touched.
   */
  lemma {:induction false} AddFilesCounts(s: Stats, files: seq<FileEntry>, cutoff: int, e: string, p: Pattern)
    ensures var r := AddFiles(s, files, cutoff);
      && r.oldFiles == s.oldFiles + OldInFiles(files, cutoff)
      && Get(r.extensions, e) == Get(s.extensions, e) + ExtInFiles(files, e)
      && Get(r.namingPatterns, p) == Get(s.namingPatterns, p) + LabelledInFiles(files, p)
      && r.totalFolders == s.totalFolders
      && r.depthDistribution == s.depthDistribution
    decreases |files|
  {
    if files != [] {
      AddFilesCounts(s, files[..|files| - 1], cutoff, e, p);
    }
  }

  /**
   * Each counter against a direct count over the walk: folders are the
   * subfolders reported, depth `d` holds the files of the folders at depth
   * `d`, extension `e` and label `p` hold the files with that extension or
   * label, and the old files are those whose time is readable and before
   * the cutoff.
   */
  lemma {:induction false} WalkStatsCounts(s: Stats, walk: seq<Node>, cutoff: int, d: nat, e: string, p: Pattern)
    ensures var r := WalkStats(s, walk, cutoff);
      && r.totalFolders == s.totalFolders + SubdirTotal(walk)
      && Get(r.depthDistribution, d) == Get(s.depthDistribution, d) + FilesAtDepth(walk, d)
      && Get(r.extensions, e) == Get(s.extensions, e) + FilesWithExt(walk, e)
      && Get(r.namingPatterns, p) == Get(s.namingPatterns, p) + FilesLabelled(walk, p)
      && r.oldFiles == s.oldFiles + OldInWalk(walk, cutoff)
    decreases |walk|
  {
    if walk != [] {
      var init := walk[..|walk| - 1];
      WalkStatsCounts(s, init, cutoff, d, e, p);
      var mid := WalkStats(s, init, cutoff);
      AddFilesCounts(EnterNode(mid, walk[|walk| - 1]), walk[|walk| - 1].files, cutoff, e, p);
    }
  }

  /** `analyze_directory(path, name)` as the nested loops over the walk. */
  method AnalyzeDirectory(rootExists: bool, walk: seq<Node>, now: int) returns (r: Option<Stats>)
    ensures r == Analyze(rootExists, walk, now)
    ensures r.None? <==> !rootExists
  {
    if !rootExists {
      return None;
    }
    var stats := EmptyStats;
    var sixMonthsAgo := now - AgeLimit;

    for i := 0 to |walk|
      invariant stats == WalkStats(EmptyStats, walk[..i], sixMonthsAgo)
    {
      assert walk[..i + 1][..i] == walk[..i];
      var node := walk[i];
      ghost var previous := stats;
      var depth := Depth(node.relPath);
      stats := stats.(totalFolders := stats.totalFolders + node.subdirs);
      stats := stats.(depthDistribution := Inc(stats.depthDistribution, depth, |node.files|));
      if depth == 0 {
        stats := stats.(looseFiles := stats.looseFiles + |node.files|);
      }
      assert stats == EnterNode(previous, node);
      stats := CountFiles(stats, node.files, sixMonthsAgo);
      assert stats == VisitNode(previous, node, sixMonthsAgo);
    }
    assert walk[..|walk|] == walk;
    r := Some(stats);
  }

  /** The inner loop of `analyze_directory` over the files of one folder. */
  method CountFiles(stats: Stats, files: seq<FileEntry>, sixMonthsAgo: int) returns (r: Stats)
    ensures r == AddFiles(stats, files, sixMonthsAgo)
  {
    r := stats;
    for j := 0 to |files|
      invariant r == AddFiles(stats, files[..j], sixMonthsAgo)
    {
      assert files[..j + 1][..j] == files[..j];
      r := CountFile(r, files[j], sixMonthsAgo);
    }
    assert files[..|files|] == files;
  }

  /** The inner loop body of `analyze_directory` for one file. */
  method CountFile(stats: Stats, file: FileEntry, sixMonthsAgo: int) returns (r: Stats)
    ensures r == AddFile(stats, file, sixMonthsAgo)
  {
    var (_, ext) := SplitExt(file.name);
    r := stats.(totalFiles := stats.totalFiles + 1, extensions := Inc(stats.extensions, Lower(ext), 1));
    // An unreadable modification time skips only the age check.
    if file.mtime.Some? && file.mtime.value < sixMonthsAgo {
      r := r.(oldFiles := r.oldFiles + 1);
    }
    var pattern := Classify(file.name);
    if pattern.Some? {
      r := r.(namingPatterns := Inc(r.namingPatterns, pattern.value, 1));
    }
  }
}
