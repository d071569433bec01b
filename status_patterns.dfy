/**
 * The three status patterns of the Slurm spawner, as string predicates and an
 * extractor: pending `^(?:PENDING|CONFIGURING)`, running `^(?:RUNNING|COMPLETING)`,
 * and the execution host `\s+((?:[\w_-]+\.?)+)$`, whose first group is the host.
 */
module StatusPatterns {
  import opened Wrappers
  import opened PyText

  /** The pending pattern: a search anchored at the start of the status text. */
  predicate IsPending(status: string) {
    StartsWith(status, "PENDING") || StartsWith(status, "CONFIGURING")
  }

  /** The running pattern: a search anchored at the start of the status text. */
  predicate IsRunning(status: string) {
    StartsWith(status, "RUNNING") || StartsWith(status, "COMPLETING")
  }

  /** No status text is both pending and running. */
  lemma PendingExcludesRunning(status: string)
    ensures !(IsPending(status) && IsRunning(status))
  {
    assert StartsWith(status, "PENDING") ==> status[0] == 'P';
    assert StartsWith(status, "CONFIGURING") ==> status[0] == 'C' && status[2] == 'N';
    assert StartsWith(status, "RUNNING") ==> status[0] == 'R';
    assert StartsWith(status, "COMPLETING") ==> status[0] == 'C' && status[2] == 'M';
  }

  /** A character of `[\w_-]` or the dot. */
  predicate IsHostChar(c: char) {
    IsWordChar(c) || c == '-' || c == '.'
  }

  /**
   * The language of `(?:[\w_-]+\.?)+`: non-empty, made of word characters, `-` and
   * `.`, not starting with a dot and never two dots in a row.
   */
  predicate IsHostName(h: string) {
    && |h| > 0
    && h[0] != '.'
    && (forall i :: 0 <= i < |h| ==> IsHostChar(h[i]))
    && (forall i :: 0 < i < |h| && h[i] == '.' ==> h[i - 1] != '.')
  }

  /** The longest suffix of `t` that holds no whitespace. */
  function TrailingToken(t: string): (tok: string)
    ensures |tok| <= |t| && tok == t[|t| - |tok|..]
    ensures forall i :: |t| - |tok| <= i < |t| ==> !IsSpace(t[i])
    ensures |tok| == |t| || IsSpace(t[|t| - |tok| - 1])
    decreases |t|
  {
    if t == [] || IsSpace(t[|t| - 1]) then []
    else TrailingToken(t[..|t| - 1]) + [t[|t| - 1]]
  }

  /** The text `$` anchors to: one final newline is not part of the match. */
  function BeforeFinalNewline(s: string): (t: string)
    ensures t == s || (s == t + "\n")
  {
    if |s| > 0 && s[|s| - 1] == '\n' then s[..|s| - 1] else s
  }

  /**
   * A match of the exec-host pattern in `s`: whitespace over `[ws, hs)`, the host
   * group over `[hs, e)`, and `e` where `$` matches (the end, or just before a final
   * newline).
   */
  ghost predicate ExecHostMatch(s: string, ws: int, hs: int, e: int) {
    && 0 <= ws < hs <= e <= |s|
    && (forall i :: ws <= i < hs ==> IsSpace(s[i]))
    && IsHostName(s[hs..e])
    && (e == |s| || (e == |s| - 1 && s[e] == '\n'))
  }

  /**
   * The exec-host extractor: the group of the pattern's match, when there is one.
   * It is the whitespace-free tail of the text (before a final newline), when that
   * tail is host-shaped and something precedes it.
   */
  function ExecHost(status: string): (r: Option<string>)
    ensures r.Some? ==> IsHostName(r.value)
  {
    var t := BeforeFinalNewline(status);
    var h := TrailingToken(t);
    if |h| < |t| && IsHostName(h) then Some(h) else None
  }

  lemma HostCharNotSpace(c: char)
    requires IsHostChar(c)
    ensures !IsSpace(c)
  {
  }

  /** Every host the extractor returns is the group of a match of the pattern. */
  lemma ExecHostSound(status: string)
    requires ExecHost(status).Some?
    ensures exists ws, hs, e :: ExecHostMatch(status, ws, hs, e) && status[hs..e] == ExecHost(status).value
  {
    var t := BeforeFinalNewline(status);
    var h := TrailingToken(t);
    var hs := |t| - |h|;
    assert status[hs..|t|] == t[hs..];
    assert ExecHostMatch(status, hs - 1, hs, |t|);
  }

  /**
   * Every match of the pattern has the extractor's host as its group, so the match
   * the regex search picks does not matter and a text with no match yields None.
   */
  lemma ExecHostComplete(status: string, ws: int, hs: int, e: int)
    requires ExecHostMatch(status, ws, hs, e)
    ensures ExecHost(status) == Some(status[hs..e])
  {
    var g := status[hs..e];
    var t := BeforeFinalNewline(status);
    HostCharNotSpace(g[|g| - 1]);
    assert e == |t|;
    assert t[hs..] == g;
    forall i | hs <= i < |t| ensures !IsSpace(t[i]) {
      HostCharNotSpace(g[i - hs]);
    }
    var h := TrailingToken(t);
    assert IsSpace(t[hs - 1]);
    assert h == g;
  }

  /** The documented status line of a running job. */
  lemma RunningStatusScenario()
    ensures IsRunning("RUNNING nid00042") && !IsPending("RUNNING nid00042")
    ensures ExecHost("RUNNING nid00042") == Some("nid00042")
  {
    var s := "RUNNING nid00042";
    assert s[..7] == "RUNNING";
    RunningStatusMatch(s);
    ExecHostComplete(s, 7, 8, 16);
  }

  lemma RunningStatusMatch(s: string)
    requires s == "RUNNING nid00042"
    ensures ExecHostMatch(s, 7, 8, 16) && s[8..16] == "nid00042"
  {
    var host := "nid00042";
    assert s == "RUNNING " + host;
    assert s[8..16] == host;
    assert IsHostName(host);
  }

  /** A pending job, and the empty text of a job that has left the queue. */
  lemma PendingAndEmptyScenarios()
    ensures IsPending("PENDING") && !IsRunning("PENDING")
    ensures !IsPending("") && !IsRunning("") && ExecHost("") == None
  {
    var p := "PENDING";
    assert p[..7] == p;
    assert p[..7] != "RUNNING" by { assert p[0] != "RUNNING"[0]; }
    assert BeforeFinalNewline("") == "" && TrailingToken("") == "";
  }
}
