/**
 * The `install_requires` list of the setup script: each line of the requirements
 * file, stripped, unless it is empty, an editable (`-e`) line or a comment (`#`).
 */
module Requirements {
  import opened Wrappers
  import opened PyText

  /** A stripped line that the loop appends rather than skips. */
  predicate IsRequirement(req: string) {
    req != "" && !StartsWith(req, "-e") && !StartsWith(req, "#")
  }

  /** `line.strip()` for every line. */
  function StripAll(lines: seq<string>): (stripped: seq<string>)
    ensures |stripped| == |lines|
    ensures forall i :: 0 <= i < |lines| ==> stripped[i] == Strip(lines[i])
  {
    seq(|lines|, i requires 0 <= i < |lines| => Strip(lines[i]))
  }

  /** The stripped lines that are requirements, in order. */
  function Kept(stripped: seq<string>): seq<string>
    decreases |stripped|
  {
    if stripped == [] then []
    else
      var req := stripped[|stripped| - 1];
      Kept(stripped[..|stripped| - 1]) + (if IsRequirement(req) then [req] else [])
  }

  /** The requirements read from `lines`, in order. */
  function RequirementsOf(lines: seq<string>): seq<string> {
    Kept(StripAll(lines))
  }

  /** The loop over the lines of the requirements file, skipping with `continue`. */
  method InstallRequires(lines: seq<string>) returns (installRequires: seq<string>)
    ensures installRequires == RequirementsOf(lines)
  {
    var stripped := StripAll(lines);
    installRequires := [];
    for n := 0 to |lines|
      invariant installRequires == Kept(stripped[..n])
    {
      assert stripped[..n + 1][..n] == stripped[..n];
      var req := Strip(lines[n]);
      if !IsRequirement(req) {
        continue;
      }
      installRequires := installRequires + [req];
    }
    assert stripped[..|lines|] == stripped;
  }

  /** The positions of the kept entries, in increasing order. */
  function KeptPositions(stripped: seq<string>): seq<nat>
    decreases |stripped|
  {
    if stripped == [] then []
    else
      var n := |stripped| - 1;
      KeptPositions(stripped[..n]) + (if IsRequirement(stripped[n]) then [n] else [])
  }

  lemma {:induction false} KeptPositionsMatch(ss: seq<string>)
    ensures var reqs, kept := Kept(ss), KeptPositions(ss);
      && |kept| == |reqs|
      && (forall j :: 0 <= j < |kept| ==> kept[j] < |ss| && reqs[j] == ss[kept[j]])
    decreases |ss|
  {
    if ss != [] {
      var init := ss[..|ss| - 1];
      KeptPositionsMatch(init);
      var reqs, kept := Kept(ss), KeptPositions(ss);
      var reqs', kept' := Kept(init), KeptPositions(init);
      forall j | 0 <= j < |kept|
        ensures kept[j] < |ss| && reqs[j] == ss[kept[j]]
      {
        if j < |kept'| {
          assert kept[j] == kept'[j] && reqs[j] == reqs'[j];
          assert ss[kept[j]] == init[kept[j]];
        }
      }
    }
  }

  lemma {:induction false} KeptPositionsIncrease(ss: seq<string>)
    ensures forall j :: 0 <= j < |KeptPositions(ss)| ==> KeptPositions(ss)[j] < |ss|
    ensures forall j, j' :: 0 <= j < j' < |KeptPositions(ss)| ==> KeptPositions(ss)[j] < KeptPositions(ss)[j']
    decreases |ss|
  {
    if ss != [] {
      var init := ss[..|ss| - 1];
      KeptPositionsIncrease(init);
      var kept, kept' := KeptPositions(ss), KeptPositions(init);
      var extra: seq<nat> := if IsRequirement(ss[|init|]) then [|init|] else [];
      assert kept == kept' + extra;
      forall j | 0 <= j < |kept|
        ensures kept[j] < |ss|
      {
        if j < |kept'| {
          assert kept[j] == kept'[j];
          assert kept'[j] < |init|;
        } else {
          assert extra != [] && kept[j] == extra[0];
        }
      }
      forall j, j' | 0 <= j < j' < |kept|
        ensures kept[j] < kept[j']
      {
        assert kept[j] == kept'[j];
        if j' < |kept'| { assert kept[j'] == kept'[j']; }
      }
    }
  }

  lemma {:induction false} KeptPositionsComplete(ss: seq<string>)
    ensures forall i :: 0 <= i < |ss| && IsRequirement(ss[i]) ==> i in KeptPositions(ss)
    decreases |ss|
  {
    if ss != [] {
      var init := ss[..|ss| - 1];
      KeptPositionsComplete(init);
      forall i | 0 <= i < |init| && IsRequirement(ss[i])
        ensures i in KeptPositions(ss)
      {
        assert ss[i] == init[i];
      }
    }
  }

  /** Every kept entry is a requirement. */
  lemma {:induction false} KeptAreRequirements(ss: seq<string>)
    ensures forall j :: 0 <= j < |Kept(ss)| ==> IsRequirement(Kept(ss)[j])
    decreases |ss|
  {
    if ss != [] {
      KeptAreRequirements(ss[..|ss| - 1]);
    }
  }

  /**
   * The requirements are the stripped kept lines in their original order: the j-th
   * requirement is the stripped line at the j-th kept position, positions increase,
   * and every line whose stripped form is a requirement has its position kept.
   */
  lemma RequirementsAreKeptLines(lines: seq<string>)
    ensures var reqs, kept := RequirementsOf(lines), KeptPositions(StripAll(lines));
      && |kept| == |reqs|
      && (forall j :: 0 <= j < |kept| ==> kept[j] < |lines| && reqs[j] == Strip(lines[kept[j]]))
      && (forall j, j' :: 0 <= j < j' < |kept| ==> kept[j] < kept[j'])
      && (forall i :: 0 <= i < |lines| && IsRequirement(Strip(lines[i])) ==> i in kept)
  {
    var ss := StripAll(lines);
    var reqs, kept := Kept(ss), KeptPositions(ss);
    KeptPositionsMatch(ss);
    KeptPositionsIncrease(ss);
    KeptPositionsComplete(ss);
    forall j | 0 <= j < |kept|
      ensures kept[j] < |lines| && reqs[j] == Strip(lines[kept[j]])
    {
      assert reqs[j] == ss[kept[j]];
    }
    forall i | 0 <= i < |lines| && IsRequirement(Strip(lines[i]))
      ensures i in kept
    {
      assert IsRequirement(ss[i]);
    }
  }

  /** A line that strips to nothing, to an editable line or to a comment is never a requirement. */
  lemma SkippedLinesAbsent(lines: seq<string>, i: int)
    requires 0 <= i < |lines| && !IsRequirement(Strip(lines[i]))
    ensures Strip(lines[i]) !in RequirementsOf(lines)
  {
    KeptAreRequirements(StripAll(lines));
  }

  /** Every other line is kept, stripped. */
  lemma OtherLinesKept(lines: seq<string>, i: int)
    requires 0 <= i < |lines| && IsRequirement(Strip(lines[i]))
    ensures Strip(lines[i]) in RequirementsOf(lines)
  {
    var ss := StripAll(lines);
    KeptPositionsMatch(ss);
    KeptPositionsComplete(ss);
    var kept := KeptPositions(ss);
    var j :| 0 <= j < |kept| && kept[j] == i;
    assert Kept(ss)[j] == ss[i];
  }

  /** The list is never longer than the file. */
  lemma RequirementsNoLonger(lines: seq<string>)
    ensures |RequirementsOf(lines)| <= |lines|
  {
    var ss := StripAll(lines);
    KeptPositionsMatch(ss);
    KeptPositionsIncrease(ss);
    IncreasingBound(KeptPositions(ss), |lines|);
  }

  /** A strictly increasing sequence of positions below `bound` has at most `bound` elements. */
  lemma {:induction false} IncreasingBound(s: seq<nat>, bound: nat)
    requires forall j :: 0 <= j < |s| ==> s[j] < bound
    requires forall j, j' :: 0 <= j < j' < |s| ==> s[j] < s[j']
    ensures |s| <= bound
    decreases bound
  {
    if s != [] {
      var last := s[|s| - 1];
      IncreasingBound(s[..|s| - 1], last);
    }
  }

  /**
   * The setup script's requirements: the list is built only when setuptools has been
   * imported; otherwise no `install_requires` argument is given.
   */
  method SetupInstallRequires(setuptoolsImported: bool, lines: seq<string>)
    returns (installRequires: Option<seq<string>>)
    ensures installRequires.Some? <==> setuptoolsImported
    ensures installRequires.Some? ==> installRequires.value == RequirementsOf(lines)
  {
    installRequires := None;
    if setuptoolsImported {
      var reqs := InstallRequires(lines);
      installRequires := Some(reqs);
    }
  }
}
