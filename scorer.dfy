/**
 * `calculate_score` in analyser.py: four threshold rules over the statistics
 * of the analysed folders, each taking points off a score of 100 and
 * adding one penalty to the list it returns.
 */
module Scorer {
  import opened Wrappers
  import opened Analyzer

  /**
   * The statistics per folder name, in insertion order; None for a folder
   * that does not exist.
   */
  type StatsMap = seq<(string, Option<Stats>)>

  /** `stats_map[folder]` when the key is there and its value is not None. */
  function Lookup(m: StatsMap, folder: string): Option<Stats>
    decreases |m|
  {
    if m == [] then None
    else if m[0].0 == folder then m[0].1
    else Lookup(m[1..], folder)
  }

  /**
   * What `Lookup` finds is the value of the first entry for that folder: no
   * earlier entry has the same name.
   */
  lemma {:induction false} LookupFirst(m: StatsMap, folder: string)
    requires Lookup(m, folder).Some?
    ensures exists i ::
      && 0 <= i < |m|
      && m[i] == (folder, Lookup(m, folder))
      && forall j :: 0 <= j < i ==> m[j].0 != folder
    decreases |m|
  {
    if m[0].0 == folder {
      assert m[0] == (folder, Lookup(m, folder));
    } else {
      LookupFirst(m[1..], folder);
      var i :| 0 <= i < |m[1..]| && m[1..][i] == (folder, Lookup(m[1..], folder)) &&
        forall j :: 0 <= j < i ==> m[1..][j].0 != folder;
      assert m[i + 1] == (folder, Lookup(m, folder));
      forall j | 0 <= j < i + 1
        ensures m[j].0 != folder
      {
        if j > 0 {
          assert m[j] == m[1..][j - 1];
        }
      }
    }
  }

  /** The folders whose loose files are judged, in the order they are judged. */
  const ClutterFolders: seq<string> := ["Desktop", "Downloads"]

  /** The depth beyond which files count as buried too deep. */
  const MaxDepth: nat := 5

  /** Files deeper than `MaxDepth`, as `deep_files` sums them. */
  ghost function DeepPart(dd: map<nat, nat>, keys: set<nat>): map<nat, nat> {
    map d | d in dd && d in keys && d > MaxDepth :: dd[d]
  }

  ghost function DeepSum(s: Stats): nat {
    SumValues<nat>(DeepPart(s.depthDistribution, s.depthDistribution.Keys))
  }

  /** Whether some depth beyond `MaxDepth` holds a file. */
  predicate HasDeepFiles(s: Stats) {
    exists d :: d in s.depthDistribution && d > MaxDepth && s.depthDistribution[d] > 0
  }

  /**
   * `deep_files` for one folder: the sum, over the depths beyond `MaxDepth`,
   * of the files found there.  It is positive exactly when some such depth
   * holds a file.
   */
  method DeepFiles(s: Stats) returns (n: nat)
    ensures n == DeepSum(s)
    ensures n > 0 <==> HasDeepFiles(s)
  {
    var dd := s.depthDistribution;
    var keys := dd.Keys;
    n := 0;
    while keys != {}
      invariant keys <= dd.Keys
      invariant n + SumValues<nat>(DeepPart(dd, keys)) == DeepSum(s)
      decreases |keys|
    {
      var d :| d in keys;
      ghost var part := DeepPart(dd, keys);
      if d > MaxDepth {
        SumRemove<nat>(part, d);
        assert part - {d} == DeepPart(dd, keys - {d});
        n := n + dd[d];
      } else {
        assert part == DeepPart(dd, keys - {d});
      }
      keys := keys - {d};
    }
    assert DeepPart(dd, keys) == map[];
    ghost var whole := DeepPart(dd, dd.Keys);
    SumPositive<nat>(whole);
    if HasDeepFiles(s) {
      ghost var d :| d in dd && d > MaxDepth && dd[d] > 0;
      assert d in whole && whole[d] > 0;
    }
    if n > 0 {
      ghost var d :| d in whole && whole[d] > 0;
      assert d in dd && d > MaxDepth && dd[d] > 0;
    }
  }

  /**
   * The number of present folders that hold files too deep: at most one per
   * entry, and positive exactly when some present folder has such a file.
   */
  function DeepDirs(m: StatsMap): (r: nat)
    ensures r <= |m|
    ensures r > 0 <==> exists i :: 0 <= i < |m| && m[i].1.Some? && HasDeepFiles(m[i].1.value)
    decreases |m|
  {
    if m == [] then 0
    else
      var init := m[..|m| - 1];
      var s := m[|m| - 1].1;
      assert forall i :: 0 <= i < |init| ==> init[i] == m[i];
      DeepDirs(init) + if s.Some? && HasDeepFiles(s.value) then 1 else 0
  }

  /** Camera, screenshot and duplicate names, as counted over the present folders. */
  function GenericNames(m: StatsMap): nat
    decreases |m|
  {
    if m == [] then 0
    else
      var s := m[|m| - 1].1;
      GenericNames(m[..|m| - 1]) + if s.None? then 0 else GenericIn(s.value)
  }

  function GenericIn(s: Stats): nat {
    Get(s.namingPatterns, CameraDefault) + Get(s.namingPatterns, Screenshot) + Get(s.namingPatterns, DuplicateCopy)
  }

  /** Old files over the present folders. */
  function OldTotal(m: StatsMap): nat
    decreases |m|
  {
    if m == [] then 0
    else
      var s := m[|m| - 1].1;
      OldTotal(m[..|m| - 1]) + if s.None? then 0 else s.value.oldFiles
  }

  /** The loose-file count of a folder, when it was analysed. */
  function LooseOf(m: StatsMap, folder: string): Option<nat> {
    match Lookup(m, folder)
    case None => None
    case Some(s) => Some(s.looseFiles)
  }

  /** The figures the rules look at. */
  datatype Tally = Tally(clutter: seq<(string, Option<nat>)>, deepDirs: nat, genericNames: nat, oldTotal: nat)

  /** Each judged folder with its loose-file count, when it was analysed. */
  function ClutterTally(m: StatsMap): (c: seq<(string, Option<nat>)>)
    ensures |c| == |ClutterFolders|
    ensures forall k :: 0 <= k < |c| ==> c[k] == (ClutterFolders[k], LooseOf(m, ClutterFolders[k]))
  {
    [(ClutterFolders[0], LooseOf(m, ClutterFolders[0])), (ClutterFolders[1], LooseOf(m, ClutterFolders[1]))]
  }

  /**
   * The figures of a stats map: Desktop and Downloads with their loose
   * counts, and a hierarchy figure of at most one per folder that is
   * positive exactly when some present folder holds files too deep.
   */
  function TallyOf(m: StatsMap): (t: Tally)
    ensures |t.clutter| == |ClutterFolders|
    ensures forall k :: 0 <= k < |t.clutter| ==> t.clutter[k].0 == ClutterFolders[k]
    ensures t.deepDirs <= |m|
    ensures t.deepDirs > 0 <==> exists i :: 0 <= i < |m| && m[i].1.Some? && HasDeepFiles(m[i].1.value)
  {
    Tally(ClutterTally(m), DeepDirs(m), GenericNames(m), OldTotal(m))
  }

  /** One entry of the returned list, standing for its message. */
  datatype Penalty =
    | Clutter(folder: string, points: nat, loose: nat)
    | Hierarchy
    | Naming(total: nat)
    | Age(total: nat)

  function Points(p: Penalty): nat {
    match p
    case Clutter(_, points, _) => points
    case Hierarchy => 10
    case Naming(_) => 15
    case Age(_) => 5
  }

  /** The rule each penalty comes from, in the order the rules run. */
  function RuleOf(p: Penalty): nat {
    match p
    case Clutter(_, _, _) => 0
    case Hierarchy => 1
    case Naming(_) => 2
    case Age(_) => 3
  }

  function TotalPoints(ps: seq<Penalty>): nat
    decreases |ps|
  {
    if ps == [] then 0 else TotalPoints(ps[..|ps| - 1]) + Points(ps[|ps| - 1])
  }

  lemma {:induction false} TotalPointsAppend(a: seq<Penalty>, b: seq<Penalty>)
    ensures TotalPoints(a + b) == TotalPoints(a) + TotalPoints(b)
    decreases |b|
  {
    if b == [] {
      assert a + b == a;
    } else {
      assert (a + b)[..|a + b| - 1] == a + b[..|b| - 1];
      TotalPointsAppend(a, b[..|b| - 1]);
    }
  }

  /**
   * The clutter deduction: nothing up to 20 loose files, then half of them
   * (rounded down), at least 10 and capped at 30.
   */
  function ClutterPoints(loose: nat): (p: nat)
    ensures p <= 30
    ensures p == 0 <==> loose <= 20
    ensures 20 < loose ==> 10 <= p
    ensures 60 <= loose ==> p == 30
    ensures 20 < loose < 60 ==> p == loose / 2
  {
    if loose > 20 then (if loose / 2 < 30 then loose / 2 else 30) else 0
  }

  /** More loose files never cost fewer points. */
  lemma ClutterPointsMonotone(a: nat, b: nat)
    requires a <= b
    ensures ClutterPoints(a) <= ClutterPoints(b)
  {
  }

  function ClutterPenalty(folder: string, loose: Option<nat>): seq<Penalty> {
    if loose.Some? && loose.value > 20 then [Clutter(folder, ClutterPoints(loose.value), loose.value)] else []
  }

  /**
   * The clutter rule over the judged folders, in order: at most one
   * penalty per folder, each a clutter penalty of at least 10 points.
   */
  function ClutterPenalties(clutter: seq<(string, Option<nat>)>): (r: seq<Penalty>)
    ensures |r| <= |clutter|
    ensures forall i :: 0 <= i < |r| ==> r[i].Clutter? && Points(r[i]) >= 10
    decreases |clutter|
  {
    if clutter == [] then []
    else
      var (folder, loose) := clutter[|clutter| - 1];
      ClutterPenalties(clutter[..|clutter| - 1]) + ClutterPenalty(folder, loose)
  }

  lemma ClutterPenaltiesSnoc(c: seq<(string, Option<nat>)>, k: nat)
    requires k < |c|
    ensures ClutterPenalties(c[..k + 1]) == ClutterPenalties(c[..k]) + ClutterPenalty(c[k].0, c[k].1)
  {
    assert c[..k + 1][..k] == c[..k];
  }

  /** `penalties.append(p)` when a rule fires. */
  function AddIf(ps: seq<Penalty>, fires: bool, p: Penalty): seq<Penalty> {
    if fires then ps + [p] else ps
  }

  lemma AddIfPoints(ps: seq<Penalty>, fires: bool, p: Penalty)
    ensures TotalPoints(AddIf(ps, fires, p)) == TotalPoints(ps) + if fires then Points(p) else 0
  {
    if fires {
      assert (ps + [p])[..|ps|] == ps;
    }
  }

  /**
   * The penalties of all four rules, in rule order: at most one per judged
   * folder and one per other rule, and none without a deduction.
   */
  function PenaltiesOf(t: Tally): (r: seq<Penalty>)
    ensures |r| <= |t.clutter| + 3
    ensures forall i :: 0 <= i < |r| ==> Points(r[i]) > 0
  {
    var c := ClutterPenalties(t.clutter);
    var h := AddIf(c, t.deepDirs > 0, Hierarchy);
    var n := AddIf(h, t.genericNames > 50, Naming(t.genericNames));
    AddIf(n, t.oldTotal > 100, Age(t.oldTotal))
  }

  /** The score, floored at 0, and the penalties behind it. */
  function Assess(t: Tally): (r: (int, seq<Penalty>))
    ensures 0 <= r.0 <= 100
    ensures 100 - TotalPoints(r.1) >= 0 ==> r.0 == 100 - TotalPoints(r.1)
  {
    var ps := PenaltiesOf(t);
    var score := 100 - TotalPoints(ps);
    (if score < 0 then 0 else score, ps)
  }

  /** `calculate_score(stats_map)`. */
  function Score(m: StatsMap): (r: (int, seq<Penalty>))
    ensures 10 <= r.0 <= 100
    ensures r.0 == 100 - TotalPoints(r.1)
  {
    var t := TallyOf(m);
    ClutterPenaltiesPoints(t.clutter);
    RulePoints(t);
    Assess(t)
  }

  /**
   * The score and penalties the four rules reach, one after the other, are
   * those of `Score`.
   */
  lemma ScoreFromRules(m: StatsMap, clutter: seq<Penalty>, deep: nat, generic: nat, aged: nat,
                       score: int, penalties: seq<Penalty>)
    requires clutter == ClutterPenalties(ClutterTally(m))
    requires deep == DeepDirs(m) && generic == GenericNames(m) && aged == OldTotal(m)
    requires penalties == AddIf(AddIf(AddIf(clutter, deep > 0, Hierarchy), generic > 50, Naming(generic)), aged > 100, Age(aged))
    requires score == 100 - TotalPoints(penalties)
    ensures Score(m) == (if score < 0 then 0 else score, penalties)
  {
    var t := TallyOf(m);
    assert t == Tally(ClutterTally(m), deep, generic, aged);
    assert PenaltiesOf(t) == penalties;
    assert Score(m) == Assess(t);
  }

  /** The sum of the clutter deductions of a list of folders. */
  function ClutterTotal(clutter: seq<(string, Option<nat>)>): nat
    decreases |clutter|
  {
    if clutter == [] then 0
    else
      var loose := clutter[|clutter| - 1].1;
      ClutterTotal(clutter[..|clutter| - 1]) + if loose.Some? then ClutterPoints(loose.value) else 0
  }

  lemma {:induction false} ClutterPenaltiesPoints(clutter: seq<(string, Option<nat>)>)
    ensures TotalPoints(ClutterPenalties(clutter)) == ClutterTotal(clutter)
    ensures ClutterTotal(clutter) <= 30 * |clutter|
    decreases |clutter|
  {
    if clutter != [] {
      var (folder, loose) := clutter[|clutter| - 1];
      ClutterPenaltiesPoints(clutter[..|clutter| - 1]);
      TotalPointsAppend(ClutterPenalties(clutter[..|clutter| - 1]), ClutterPenalty(folder, loose));
      assert TotalPoints(ClutterPenalty(folder, loose)) == if loose.Some? then ClutterPoints(loose.value) else 0 by {
        if loose.Some? && loose.value > 20 {
          assert ClutterPenalty(folder, loose)[..0] == [];
        }
      }
    }
  }

  /** The deduction of each rule, added up. */
  lemma RulePoints(t: Tally)
    ensures TotalPoints(PenaltiesOf(t)) ==
      ClutterTotal(t.clutter)
      + (if t.deepDirs > 0 then 10 else 0)
      + (if t.genericNames > 50 then 15 else 0)
      + (if t.oldTotal > 100 then 5 else 0)
  {
    var c := ClutterPenalties(t.clutter);
    var h := AddIf(c, t.deepDirs > 0, Hierarchy);
    var n := AddIf(h, t.genericNames > 50, Naming(t.genericNames));
    ClutterPenaltiesPoints(t.clutter);
    AddIfPoints(c, t.deepDirs > 0, Hierarchy);
    AddIfPoints(h, t.genericNames > 50, Naming(t.genericNames));
    AddIfPoints(n, t.oldTotal > 100, Age(t.oldTotal));
  }

  /**
   * Which penalties a tally draws: a clutter penalty for each judged folder
   * with more than 20 loose files, one hierarchy penalty when any folder
   * has files too deep, and a naming and an age penalty past their
   * thresholds, in rule order.
   */
  lemma {:induction false} ClutterPenaltiesAre(clutter: seq<(string, Option<nat>)>, p: Penalty)
    ensures p in ClutterPenalties(clutter) <==>
      exists i :: 0 <= i < |clutter| && clutter[i].1.Some? && clutter[i].1.value > 20 &&
        p == Clutter(clutter[i].0, ClutterPoints(clutter[i].1.value), clutter[i].1.value)
    decreases |clutter|
  {
    if clutter != [] {
      var init := clutter[..|clutter| - 1];
      ClutterPenaltiesAre(init, p);
      if p in ClutterPenalties(init) {
        var i :| 0 <= i < |init| && init[i].1.Some? && init[i].1.value > 20 &&
          p == Clutter(init[i].0, ClutterPoints(init[i].1.value), init[i].1.value);
        assert clutter[i] == init[i];
      }
      if exists i :: 0 <= i < |clutter| && clutter[i].1.Some? && clutter[i].1.value > 20 &&
          p == Clutter(clutter[i].0, ClutterPoints(clutter[i].1.value), clutter[i].1.value) {
        var i :| 0 <= i < |clutter| && clutter[i].1.Some? && clutter[i].1.value > 20 &&
          p == Clutter(clutter[i].0, ClutterPoints(clutter[i].1.value), clutter[i].1.value);
        if i < |init| {
          assert init[i] == clutter[i];
        }
      }
    }
  }

  lemma HierarchyRule(t: Tally)
    ensures Hierarchy in PenaltiesOf(t) <==> t.deepDirs > 0
  {
  }

  lemma NamingRule(t: Tally, n: nat)
    ensures Naming(n) in PenaltiesOf(t) <==> t.genericNames > 50 && n == t.genericNames
  {
  }

  lemma AgeRule(t: Tally, n: nat)
    ensures Age(n) in PenaltiesOf(t) <==> t.oldTotal > 100 && n == t.oldTotal
  {
  }

  /**
   * Penalties come in rule order, and each rule but the clutter rule (one
   * per judged folder) gives at most one.
   */
  predicate RuleOrdered(ps: seq<Penalty>) {
    forall i, j :: 0 <= i < j < |ps| ==>
      RuleOf(ps[i]) <= RuleOf(ps[j]) && (RuleOf(ps[i]) > 0 ==> RuleOf(ps[i]) < RuleOf(ps[j]))
  }

  /** Appending a penalty of a later rule keeps the list in rule order. */
  lemma OrderedAddIf(ps: seq<Penalty>, fires: bool, p: Penalty)
    requires RuleOrdered(ps)
    requires forall x :: x in ps ==> RuleOf(x) < RuleOf(p)
    ensures RuleOrdered(AddIf(ps, fires, p))
  {
    if fires {
      var r := ps + [p];
      forall i, j | 0 <= i < j < |r|
        ensures RuleOf(r[i]) <= RuleOf(r[j])
        ensures RuleOf(r[i]) > 0 ==> RuleOf(r[i]) < RuleOf(r[j])
      {
        if j < |ps| {
          assert r[i] == ps[i] && r[j] == ps[j];
        } else {
          assert r[i] in ps && r[j] == p;
        }
      }
    }
  }

  lemma RuleOrder(t: Tally)
    ensures RuleOrdered(PenaltiesOf(t))
  {
    var c := ClutterPenalties(t.clutter);
    var h := AddIf(c, t.deepDirs > 0, Hierarchy);
    var n := AddIf(h, t.genericNames > 50, Naming(t.genericNames));
    assert RuleOrdered(c) by {
      forall i | 0 <= i < |c| ensures RuleOf(c[i]) == 0 {
        assert c[i] in c;
      }
    }
    OrderedAddIf(c, t.deepDirs > 0, Hierarchy);
    OrderedAddIf(h, t.genericNames > 50, Naming(t.genericNames));
    OrderedAddIf(n, t.oldTotal > 100, Age(t.oldTotal));
  }

  /**
   * A tally that is at least as bad everywhere, where an absent folder
   * counts as better than any loose count.
   */
  predicate Worse(t: Tally, u: Tally) {
    && |t.clutter| == |u.clutter|
    && (forall i :: 0 <= i < |t.clutter| ==>
          t.clutter[i].1.Some? ==> u.clutter[i].1.Some? && t.clutter[i].1.value <= u.clutter[i].1.value)
    && t.deepDirs <= u.deepDirs
    && t.genericNames <= u.genericNames
    && t.oldTotal <= u.oldTotal
  }

  lemma {:induction false} ClutterTotalMonotone(a: seq<(string, Option<nat>)>, b: seq<(string, Option<nat>)>)
    requires |a| == |b|
    requires forall i :: 0 <= i < |a| ==> a[i].1.Some? ==> b[i].1.Some? && a[i].1.value <= b[i].1.value
    ensures ClutterTotal(a) <= ClutterTotal(b)
    decreases |a|
  {
    if a != [] {
      var n := |a| - 1;
      ClutterTotalMonotone(a[..n], b[..n]);
      if a[n].1.Some? {
        ClutterPointsMonotone(a[n].1.value, b[n].1.value);
      }
    }
  }

  /** The score never goes up when a tally gets worse. */
  lemma ScoreMonotone(t: Tally, u: Tally)
    requires Worse(t, u)
    ensures Assess(u).0 <= Assess(t).0
  {
    RulePoints(t);
    RulePoints(u);
    ClutterTotalMonotone(t.clutter, u.clutter);
  }

  /** Whether no entry of `m` is for `folder`. */
  predicate Unlisted(m: StatsMap, folder: string) {
    forall i :: 0 <= i < |m| ==> m[i].0 != folder
  }

  lemma {:induction false} LookupUnlisted(m: StatsMap, folder: string)
    requires Unlisted(m, folder)
    ensures Lookup(m, folder) == None
    decreases |m|
  {
    if m != [] {
      assert Unlisted(m[1..], folder) by {
        forall i | 0 <= i < |m| - 1
          ensures m[1..][i].0 != folder
        {
          assert m[1..][i] == m[i + 1];
        }
      }
      LookupUnlisted(m[1..], folder);
    }
  }

  /**
   * An entry inserted anywhere changes no lookup of another folder; nor of
   * its own folder when it says that folder was not found and no later
   * entry is for it.
   */
  lemma {:induction false} LookupInsert(m1: StatsMap, m2: StatsMap, entry: (string, Option<Stats>), key: string)
    requires entry.0 != key || (entry.1.None? && Unlisted(m2, key))
    ensures Lookup(m1 + [entry] + m2, key) == Lookup(m1 + m2, key)
    decreases |m1|
  {
    if m1 == [] {
      assert m1 + [entry] + m2 == [entry] + m2;
      assert ([entry] + m2)[1..] == m2;
      assert m1 + m2 == m2;
      if entry.0 == key {
        LookupUnlisted(m2, key);
      }
    } else {
      assert (m1 + [entry] + m2)[1..] == m1[1..] + [entry] + m2;
      assert (m1 + m2)[1..] == m1[1..] + m2;
      LookupInsert(m1[1..], m2, entry, key);
    }
  }

  /** The three totals over the folders add up over a split of the map. */
  lemma {:induction false} TotalsAppend(a: StatsMap, b: StatsMap)
    ensures DeepDirs(a + b) == DeepDirs(a) + DeepDirs(b)
    ensures GenericNames(a + b) == GenericNames(a) + GenericNames(b)
    ensures OldTotal(a + b) == OldTotal(a) + OldTotal(b)
    decreases |b|
  {
    if b == [] {
      assert a + b == a;
    } else {
      assert (a + b)[..|a + b| - 1] == a + b[..|b| - 1];
      TotalsAppend(a, b[..|b| - 1]);
    }
  }

  /** An entry whose folder was not found adds nothing to the three totals. */
  lemma AbsentEntryTotals(m1: StatsMap, m2: StatsMap, entry: (string, Option<Stats>))
    requires entry.1.None?
    ensures DeepDirs(m1 + [entry] + m2) == DeepDirs(m1 + m2)
    ensures GenericNames(m1 + [entry] + m2) == GenericNames(m1 + m2)
    ensures OldTotal(m1 + [entry] + m2) == OldTotal(m1 + m2)
  {
    var absent: StatsMap := [entry];
    TotalsAppend(m1 + absent, m2);
    TotalsAppend(m1, absent);
    TotalsAppend(m1, m2);
    assert absent[..0] == [];
  }

  /**
   * A folder that was not found changes no rule, wherever its entry sits,
   * provided no later entry is for the same folder.
   */
  lemma AbsentFolderIgnored(m1: StatsMap, m2: StatsMap, folder: string)
    requires Unlisted(m2, folder)
    ensures TallyOf(m1 + [(folder, None)] + m2) == TallyOf(m1 + m2)
  {
    AbsentEntryTotals(m1, m2, (folder, None));
    LookupInsert(m1, m2, (folder, None), ClutterFolders[0]);
    LookupInsert(m1, m2, (folder, None), ClutterFolders[1]);
    assert ClutterTally(m1 + [(folder, None)] + m2) == ClutterTally(m1 + m2);
  }

  /** Only Desktop and Downloads are judged for clutter: other entries do not matter. */
  lemma OnlyClutterFoldersJudged(m1: StatsMap, m2: StatsMap, entry: (string, Option<Stats>))
    requires entry.0 !in ClutterFolders
    ensures ClutterTally(m1 + [entry] + m2) == ClutterTally(m1 + m2)
  {
    LookupInsert(m1, m2, entry, ClutterFolders[0]);
    LookupInsert(m1, m2, entry, ClutterFolders[1]);
  }

  /** `total_depth_issues`: the present folders with files too deep. */
  method CountDepthIssues(m: StatsMap) returns (count: nat)
    ensures count == DeepDirs(m)
  {
    count := 0;
    for i := 0 to |m|
      invariant count == DeepDirs(m[..i])
    {
      assert m[..i + 1][..i] == m[..i];
      var stats := m[i].1;
      if stats.None? {
        continue;
      }
      var deepFiles := DeepFiles(stats.value);
      if deepFiles > 0 {
        count := count + 1;
      }
    }
    assert m[..|m|] == m;
  }

  /** `total_default_names`: camera, screenshot and duplicate names over the present folders. */
  method CountDefaultNames(m: StatsMap) returns (total: nat)
    ensures total == GenericNames(m)
  {
    total := 0;
    for i := 0 to |m|
      invariant total == GenericNames(m[..i])
    {
      assert m[..i + 1][..i] == m[..i];
      var stats := m[i].1;
      if stats.None? {
        continue;
      }
      total := total + Get(stats.value.namingPatterns, CameraDefault);
      total := total + Get(stats.value.namingPatterns, Screenshot);
      total := total + Get(stats.value.namingPatterns, DuplicateCopy);
    }
    assert m[..|m|] == m;
  }

  /** `total_old`: the old files over the present folders. */
  method CountOld(m: StatsMap) returns (total: nat)
    ensures total == OldTotal(m)
  {
    total := 0;
    for i := 0 to |m|
      invariant total == OldTotal(m[..i])
    {
      assert m[..i + 1][..i] == m[..i];
      if m[i].1.Some? {
        total := total + m[i].1.value.oldFiles;
      }
    }
    assert m[..|m|] == m;
  }

  /**
   * The clutter rule of `calculate_score`: for each judged folder that was
   * analysed and has more than 20 loose files, deduct its clutter points
   * and add its penalty.
   */
  method ClutterRule(m: StatsMap, score0: int) returns (score: int, penalties: seq<Penalty>)
    ensures penalties == ClutterPenalties(ClutterTally(m))
    ensures score == score0 - TotalPoints(penalties)
  {
    ghost var c := ClutterTally(m);
    score, penalties := score0, [];
    for k := 0 to |ClutterFolders|
      invariant penalties == ClutterPenalties(c[..k])
      invariant score == score0 - TotalPoints(penalties)
    {
      var folder := ClutterFolders[k];
      var stats := Lookup(m, folder);
      ClutterPenaltiesSnoc(c, k);
      assert c[k] == (folder, LooseOf(m, folder));
      if stats.Some? {
        var loose := stats.value.looseFiles;
        if loose > 20 {
          var penalty := if 30 < loose / 2 then 30 else loose / 2;
          score := score - penalty;
          AddIfPoints(penalties, true, Clutter(folder, penalty, loose));
          penalties := penalties + [Clutter(folder, penalty, loose)];
        }
      }
    }
    assert c[..|ClutterFolders|] == c;
  }

  /** One of the three global rules: when it fires, deduct its points and add its penalty. */
  method ApplyRule(score0: int, penalties0: seq<Penalty>, fires: bool, p: Penalty)
    returns (score: int, penalties: seq<Penalty>)
    ensures penalties == AddIf(penalties0, fires, p)
    ensures score == score0 - TotalPoints(penalties) + TotalPoints(penalties0)
  {
    score, penalties := score0, penalties0;
    AddIfPoints(penalties0, fires, p);
    if fires {
      score := score - Points(p);
      penalties := penalties + [p];
    }
  }

  /** `calculate_score`, rule by rule as the source runs it. */
  method CalculateScore(m: StatsMap) returns (score: int, penalties: seq<Penalty>)
    ensures (score, penalties) == Score(m)
  {
    // 1. Clutter, for the judged folders.
    score, penalties := ClutterRule(m, 100);
    ghost var clutter := penalties;

    // 2. Hierarchy: 10 points when some folder has files too deep.
    var totalDepthIssues := CountDepthIssues(m);
    score, penalties := ApplyRule(score, penalties, totalDepthIssues > 0, Hierarchy);
    ghost var hierarchy := penalties;

    // 3. Naming consistency: 15 points over 50 generic names.
    var totalDefaultNames := CountDefaultNames(m);
    score, penalties := ApplyRule(score, penalties, totalDefaultNames > 50, Naming(totalDefaultNames));
    ghost var naming := penalties;

    // 4. Old files: 5 points over 100 old files.
    var totalOld := CountOld(m);
    score, penalties := ApplyRule(score, penalties, totalOld > 100, Age(totalOld));
    ScoreFromRules(m, clutter, totalDepthIssues, totalDefaultNames, totalOld, score, penalties);

    score := if score < 0 then 0 else score;
  }
}
