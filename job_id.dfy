/**
 * Job-id parsing for the Slurm spawner: the output of `sbatch` ("Submitted batch
 * job 209") is split on the single space character and its last field must be an
 * integer literal.
 */
module JobId {
  import opened Wrappers
  import opened PyText

  /** Python's `s.split(' ')`: the fields between single space characters, empty ones included. */
  function SplitOnSpace(s: string): (fields: seq<string>)
    ensures |fields| >= 1
    ensures forall i :: 0 <= i < |fields| ==> ' ' !in fields[i]
    decreases |s|
  {
    if s == [] then [[]]
    else
      var init := SplitOnSpace(s[..|s| - 1]);
      var c := s[|s| - 1];
      if c == ' ' then init + [[]]
      else init[..|init| - 1] + [init[|init| - 1] + [c]]
  }

  /** The last field of a split is the space-free tail of the text. */
  lemma {:induction false} SplitLastField(s: string)
    ensures var fs := SplitOnSpace(s); IsLastField(s, fs[|fs| - 1])
    decreases |s|
  {
    if s != [] && s[|s| - 1] != ' ' {
      var init, c := s[..|s| - 1], s[|s| - 1];
      SplitLastField(init);
      var fs := SplitOnSpace(init);
      var last := fs[|fs| - 1] + [c];
      assert SplitOnSpace(s)[|SplitOnSpace(s)| - 1] == last;
      assert s[|s| - |last|..] == init[|init| - |fs[|fs| - 1]|..] + [c];
    }
  }

  /** Python's `' '.join(fields)`. */
  function JoinOnSpace(fields: seq<string>): string
    requires |fields| >= 1
    decreases |fields|
  {
    if |fields| == 1 then fields[0]
    else JoinOnSpace(fields[..|fields| - 1]) + " " + fields[|fields| - 1]
  }

  /**
   * `f` is what `s.split(' ')[-1]` yields: a space-free suffix of `s` that is either
   * all of `s` or preceded by a space.
   */
  ghost predicate IsLastField(s: string, f: string) {
    && |f| <= |s|
    && s[|s| - |f|..] == f
    && ' ' !in f
    && (|f| == |s| || s[|s| - |f| - 1] == ' ')
  }

  /** `output.split(' ')[-1]`; the split never yields an empty list, so the index is always valid. */
  function LastField(s: string): (f: string)
    ensures IsLastField(s, f)
  {
    SplitLastField(s);
    var fields := SplitOnSpace(s);
    fields[|fields| - 1]
  }

  /** Joining the fields of a split gives back the text. */
  lemma {:induction false} SplitThenJoin(s: string)
    ensures JoinOnSpace(SplitOnSpace(s)) == s
    decreases |s|
  {
    if s != [] {
      var init, c := s[..|s| - 1], s[|s| - 1];
      assert s == init + [c];
      SplitThenJoin(init);
      var fs := SplitOnSpace(init);
      if c == ' ' {
        assert SplitOnSpace(s) == fs + [[]];
        assert (fs + [[]])[..|fs|] == fs;
      } else {
        var lead, last := fs[..|fs| - 1], fs[|fs| - 1];
        var r := lead + [last + [c]];
        assert SplitOnSpace(s) == r;
        if |fs| > 1 {
          assert r[..|r| - 1] == lead;
          assert fs[..|fs| - 1] == lead;
          assert JoinOnSpace(r) == JoinOnSpace(lead) + " " + last + [c];
        }
      }
    }
  }

  /** Appending space-free text extends the last field of a split and leaves the others alone. */
  lemma {:induction false} SplitPlainSuffix(a: string, b: string)
    requires ' ' !in b
    ensures var fs := SplitOnSpace(a);
      SplitOnSpace(a + b) == fs[..|fs| - 1] + [fs[|fs| - 1] + b]
    decreases |b|
  {
    var fs := SplitOnSpace(a);
    if b == [] {
      assert a + b == a;
      assert fs[|fs| - 1] + b == fs[|fs| - 1];
      assert fs == fs[..|fs| - 1] + [fs[|fs| - 1]];
    } else {
      var b', c := b[..|b| - 1], b[|b| - 1];
      assert c != ' ' && ' ' !in b';
      assert a + b == (a + b') + [c];
      assert (a + b)[..|a + b| - 1] == a + b';
      SplitPlainSuffix(a, b');
      var lead, last := fs[..|fs| - 1], fs[|fs| - 1];
      var mid := lead + [last + b'];
      assert SplitOnSpace(a + b') == mid;
      assert SplitOnSpace(a + b) == mid[..|mid| - 1] + [mid[|mid| - 1] + [c]];
      assert mid[..|mid| - 1] == lead;
      assert last + b' + [c] == last + b;
    }
  }

  /** A space followed by space-free text adds exactly that text as a new last field. */
  lemma SplitAppendField(p: string, n: string)
    requires ' ' !in n
    ensures SplitOnSpace(p + " " + n) == SplitOnSpace(p) + [n]
  {
    var fs, ps := SplitOnSpace(p), p + " ";
    assert ps[..|ps| - 1] == p;
    var gs := fs + [[]];
    assert SplitOnSpace(ps) == gs;
    SplitPlainSuffix(ps, n);
    assert gs[..|gs| - 1] == fs;
    assert gs[|gs| - 1] + n == n;
    assert ps + n == p + " " + n;
  }

  /** Splitting the join of space-free fields recovers exactly those fields. */
  lemma {:induction false} JoinThenSplit(fields: seq<string>)
    requires |fields| >= 1
    requires forall i :: 0 <= i < |fields| ==> ' ' !in fields[i]
    ensures SplitOnSpace(JoinOnSpace(fields)) == fields
    decreases |fields|
  {
    var f := fields[|fields| - 1];
    if |fields| == 1 {
      SplitPlainSuffix([], f);
      assert SplitOnSpace([]) == [[]];
      assert [] + f == f;
      assert JoinOnSpace(fields) == f;
      assert fields == [f];
    } else {
      var init := fields[..|fields| - 1];
      var j := JoinOnSpace(init);
      assert JoinOnSpace(fields) == j + " " + f;
      JoinThenSplit(init);
      SplitAppendField(j, f);
      assert init + [f] == fields;
    }
  }

  /** The last field of a split is determined by its characterisation. */
  lemma LastFieldUnique(s: string, f: string)
    requires IsLastField(s, f)
    ensures f == LastField(s)
  {
  }

  /** Digits, with single underscores allowed between two digits, as `int()` accepts them. */
  predicate IsDigitGroups(b: string) {
    && |b| > 0
    && forall i :: 0 <= i < |b| ==>
         IsDigit(b[i]) || (b[i] == '_' && 0 < i < |b| - 1 && IsDigit(b[i - 1]) && IsDigit(b[i + 1]))
  }

  /**
   * What Python's `int(field)` accepts in base 10: optional surrounding whitespace,
   * an optional sign, then digit groups.
   */
  predicate IsIntLiteral(f: string) {
    var t := Trim(f, IsAsciiSpace);
    var body := if |t| > 0 && (t[0] == '+' || t[0] == '-') then t[1..] else t;
    IsDigitGroups(body)
  }

  const LogPrefix := "SlurmSpawner unable to parse job ID from text: "

  /** The failure of `parse_job_id`: the line written to the error log, holding the raw output. */
  datatype ParseError = UnparsableJobId(logged: string)

  /**
   * `parse_job_id`: the last space-separated field of the submit output when it is an
   * integer literal, returned as text without normalisation; otherwise an error
   * carrying the logged line.
   */
  function ParseJobId(output: string): (r: Result<string, ParseError>)
    ensures r.Ok? <==> IsIntLiteral(LastField(output))
    ensures r.Ok? ==> IsLastField(output, r.value) && ' ' !in r.value
    ensures r.Err? ==> r.error.logged == LogPrefix + output
  {
    var id := LastField(output);
    if IsIntLiteral(id) then Ok(id) else Err(UnparsableJobId(LogPrefix + output))
  }

  /** A non-empty run of ASCII digits is an integer literal. */
  lemma DigitsAreIntLiteral(n: string)
    requires |n| > 0 && forall i :: 0 <= i < |n| ==> IsDigit(n[i])
    ensures IsIntLiteral(n)
  {
    assert IsDigitGroups(n);
    assert !IsAsciiSpace(n[0]) && !IsAsciiSpace(n[|n| - 1]);
    TrimUnchanged(n, IsAsciiSpace);
    var t := Trim(n, IsAsciiSpace);
    assert t == n && t[0] != '+' && t[0] != '-';
  }

  /** Any text, a space, then a digit string: the digit string is the job id. */
  lemma ParseJobIdAfterSpace(p: string, n: string)
    requires |n| > 0 && forall i :: 0 <= i < |n| ==> IsDigit(n[i])
    ensures ParseJobId(p + " " + n) == Ok(n)
  {
    SplitAppendField(p, n);
    DigitsAreIntLiteral(n);
  }

  /** The documented sbatch output. */
  lemma ParseSubmittedBatchJob()
    ensures ParseJobId("Submitted batch job 209") == Ok("209")
  {
    assert "Submitted batch job 209" == "Submitted batch job" + " " + "209";
    ParseJobIdAfterSpace("Submitted batch job", "209");
  }

  /** Output without a space is its own candidate id. */
  lemma ParseJobIdNoSpace(output: string)
    requires ' ' !in output
    ensures ParseJobId(output) == if IsIntLiteral(output) then Ok(output) else Err(UnparsableJobId(LogPrefix + output))
  {
    LastFieldUnique(output, output);
  }

  /** Output ending in a space has an empty last field, which is no integer. */
  lemma ParseJobIdTrailingSpace(output: string)
    requires |output| > 0 && output[|output| - 1] == ' '
    ensures ParseJobId(output) == Err(UnparsableJobId(LogPrefix + output))
  {
    LastFieldUnique(output, []);
  }
}
