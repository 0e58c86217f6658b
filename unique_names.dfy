/**
 * Collision-free renaming (`get_unique_filename` in cleaner.py): keep the
 * name if it is free in the target folder, otherwise try `name(1)ext`,
 * `name(2)ext`, ... and keep the first one that is free.
 */
module UniqueNames {
  import opened Text
  import opened FileSystem

  /** The k-th renaming of `filename`: `f"{name}({k}){ext}"`. */
  function Candidate(filename: string, k: nat): string {
    var (stem, ext) := SplitExt(filename);
    stem + "(" + NatToString(k) + ")" + ext
  }

  /** Different counters give different names. */
  lemma CandidateInjective(filename: string, j: nat, k: nat)
    requires Candidate(filename, j) == Candidate(filename, k)
    ensures j == k
  {
    var (stem, ext) := SplitExt(filename);
    var a, b := NatToString(j), NatToString(k);
    var x, y := Candidate(filename, j), Candidate(filename, k);
    assert |x| == |stem| + |a| + 2 + |ext|;
    assert |y| == |stem| + |b| + 2 + |ext|;
    assert x[|stem| + 1..|stem| + 1 + |a|] == a;
    assert y[|stem| + 1..|stem| + 1 + |b|] == b;
    NatToStringInjective(j, k);
  }

  /** A renamed file keeps its extension, hence its category. */
  lemma CandidateKeepsExtension(filename: string, k: nat)
    requires SplitExt(filename).1 != []
    ensures SplitExt(Candidate(filename, k)).1 == SplitExt(filename).1
  {
    var infix := "(" + NatToString(k) + ")";
    assert forall i :: 0 <= i < |infix| ==> infix[i] != '.' by {
      forall i | 0 <= i < |infix| ensures infix[i] != '.' {
        if 0 < i < |infix| - 1 {
          assert infix[i] == NatToString(k)[i - 1];
        }
      }
    }
    SplitExtInsert(filename, infix);
    assert Candidate(filename, k) == SplitExt(filename).0 + infix + SplitExt(filename).1;
  }

  /** The first `m` renamings of `filename`. */
  ghost function Candidates(filename: string, m: nat): set<string> {
    if m == 0 then {} else Candidates(filename, m - 1) + {Candidate(filename, m)}
  }

  lemma {:induction false} CandidatesCount(filename: string, m: nat)
    ensures |Candidates(filename, m)| == m
    ensures forall j :: m < j ==> Candidate(filename, j) !in Candidates(filename, m)
  {
    if m > 0 {
      CandidatesCount(filename, m - 1);
      forall j | m < j
        ensures Candidate(filename, j) !in Candidates(filename, m)
      {
        if Candidate(filename, j) == Candidate(filename, m) {
          CandidateInjective(filename, j, m);
        }
      }
    }
  }

  lemma {:induction false} CandidatesWithin(taken: set<string>, filename: string, m: nat)
    requires forall j :: 1 <= j <= m ==> Candidate(filename, j) in taken
    ensures Candidates(filename, m) <= taken
  {
    if m > 0 {
      CandidatesWithin(taken, filename, m - 1);
    }
  }

  /** A folder with `n` names can hold at most `n` of the renamings. */
  lemma Pigeonhole(taken: set<string>, filename: string, m: nat)
    requires forall j :: 1 <= j <= m ==> Candidate(filename, j) in taken
    ensures m <= |taken|
  {
    CandidatesCount(filename, m);
    CandidatesWithin(taken, filename, m);
    SubsetCardinality(Candidates(filename, m), taken);
  }

  lemma {:induction false} SubsetCardinality(a: set<string>, b: set<string>)
    requires a <= b
    ensures |a| <= |b|
  {
    if a != {} {
      var x :| x in a;
      SubsetCardinality(a - {x}, b - {x});
    }
  }

  /** The least counter from `k` on whose renaming is free. */
  function FirstFreeIndex(taken: set<string>, filename: string, k: nat): (i: nat)
    requires 1 <= k
    requires forall j :: 1 <= j < k ==> Candidate(filename, j) in taken
    ensures k <= i && Candidate(filename, i) !in taken
    ensures forall j :: 1 <= j < i ==> Candidate(filename, j) in taken
    decreases |taken| + 1 - k
  {
    if Candidate(filename, k) !in taken then k
    else
      Pigeonhole(taken, filename, k);
      FirstFreeIndex(taken, filename, k + 1)
  }

  /**
   * The name `get_unique_filename` settles on, given the names already taken
   * in the target folder: the name itself when free, else the renaming with
   * the least counter that is free.  It is never a taken name.
   */
  function UniqueName(taken: set<string>, filename: string): (r: string)
    ensures r !in taken
    ensures filename !in taken ==> r == filename
    ensures filename in taken ==>
      exists k :: 1 <= k && r == Candidate(filename, k) &&
        forall j :: 1 <= j < k ==> Candidate(filename, j) in taken
  {
    if filename !in taken then filename
    else Candidate(filename, FirstFreeIndex(taken, filename, 1))
  }

  /** `get_unique_filename(directory, filename)`: the probing loop. */
  method UniqueFilename(fs: Fs, directory: string, filename: string) returns (r: string)
    ensures r == UniqueName(Entries(fs, directory), filename)
    ensures !Exists(fs, Path(directory, r))
  {
    ghost var taken := Entries(fs, directory);
    var counter: nat := 1;
    r := filename;
    while Exists(fs, Path(directory, r))
      invariant 1 <= counter
      invariant counter == 1 ==> r == filename
      invariant counter > 1 ==> filename in taken && r == Candidate(filename, counter - 1)
      invariant forall j :: 1 <= j < counter - 1 ==> Candidate(filename, j) in taken
      decreases |taken| + 1 - counter
    {
      if counter > 1 {
        Pigeonhole(taken, filename, counter - 1);
      }
      r := Candidate(filename, counter);
      counter := counter + 1;
    }
  }
}
