/**
 * `_req_env_text`: the environment block of the batch script, one
 * `export NAME=value` line per entry of `get_env`'s result, in its order.
 */
module EnvText {
  import opened Wrappers
  import opened Environment

  /** `'export %s=%s\n' % item`. */
  function ExportLine(e: Entry): string {
    "export " + e.0 + "=" + e.1 + "\n"
  }

  /** The lines of all entries, concatenated in order. */
  function EnvText(es: seq<Entry>): string
    decreases |es|
  {
    if es == [] then "" else ExportLine(es[0]) + EnvText(es[1..])
  }

  /** Rendering one more entry appends its line. */
  lemma {:induction false} EnvTextAppend(es: seq<Entry>, e: Entry)
    ensures EnvText(es + [e]) == EnvText(es) + ExportLine(e)
    decreases |es|
  {
    if es == [] {
      assert [e][1..] == [];
    } else {
      assert (es + [e])[1..] == es[1..] + [e];
      EnvTextAppend(es[1..], e);
    }
  }

  /**
   * `_req_env_text`: takes the environment of `get_env` and accumulates one export
   * line per entry.
   */
  method ReqEnvText(base: seq<Entry>, s: Settings) returns (text: string)
    requires UniqueKeys(base)
    ensures text == EnvText(NerscEnv(base, s))
  {
    var env := GetEnv(base, s);
    text := RenderEnvText(env.entries);
  }

  /** The loop of `_req_env_text` over the items of the environment. */
  method RenderEnvText(items: seq<Entry>) returns (text: string)
    ensures text == EnvText(items)
  {
    text := "";
    for n := 0 to |items|
      invariant text == EnvText(items[..n])
    {
      assert items[..n + 1] == items[..n] + [items[n]];
      EnvTextAppend(items[..n], items[n]);
      text := text + ExportLine(items[n]);
    }
    assert items[..|items|] == items;
  }

  /** No entry's name or value holds `c`. */
  ghost predicate Avoids(es: seq<Entry>, c: char) {
    forall i :: 0 <= i < |es| ==> c !in es[i].0 && c !in es[i].1
  }

  /** With no newline inside names and values, the text has exactly one newline per entry. */
  lemma {:induction false} EnvTextNewlines(es: seq<Entry>)
    requires Avoids(es, '\n')
    ensures multiset(EnvText(es))['\n'] == |es|
    decreases |es|
  {
    if es != [] {
      EnvTextNewlines(es[1..]);
      ExportLineNewline(es[0]);
      assert multiset(EnvText(es)) == multiset(ExportLine(es[0])) + multiset(EnvText(es[1..]));
    }
  }

  lemma ExportLineNewline(e: Entry)
    requires '\n' !in e.0 && '\n' !in e.1
    ensures multiset(ExportLine(e))['\n'] == 1
  {
    assert multiset(e.0)['\n'] == 0 && multiset(e.1)['\n'] == 0;
    assert multiset(ExportLine(e)) == multiset("export ") + multiset(e.0) + multiset("=") + multiset(e.1) + multiset("\n");
  }

  /** Splits `s` at the first `d`, when there is one. */
  function SplitAtFirst(s: string, d: char): (r: Option<(string, string)>)
    ensures r.Some? ==> s == r.value.0 + [d] + r.value.1 && d !in r.value.0
    ensures r.None? ==> d !in s
    decreases |s|
  {
    if s == [] then None
    else if s[0] == d then Some(([], s[1..]))
    else match SplitAtFirst(s[1..], d)
      case None => None
      case Some((a, b)) => Some(([s[0]] + a, b))
  }

  lemma {:induction false} SplitAtFirstOf(a: string, d: char, b: string)
    requires d !in a
    ensures SplitAtFirst(a + [d] + b, d) == Some((a, b))
    decreases |a|
  {
    if a != [] {
      assert (a + [d] + b)[1..] == a[1..] + [d] + b;
      SplitAtFirstOf(a[1..], d, b);
      assert [a[0]] + a[1..] == a;
    }
  }

  /**
   * Reads back the entries of an environment block: `export `, a name up to the
   * first `=`, a value up to the end of the line, repeated.
   */
  function DecodeEnvText(text: string): Option<seq<Entry>>
    decreases |text|
  {
    if text == [] then Some([])
    else if !(|text| >= 7 && text[..7] == "export ") then None
    else match SplitAtFirst(text[7..], '=')
      case None => None
      case Some((name, rest)) =>
        match SplitAtFirst(rest, '\n')
        case None => None
        case Some((value, more)) =>
          match DecodeEnvText(more)
          case None => None
          case Some(es) => Some([(name, value)] + es)
  }

  /** One export line followed by more text decodes to its entry followed by what the rest decodes to. */
  lemma DecodeExportLine(e: Entry, more: string)
    requires '=' !in e.0 && '\n' !in e.1
    ensures DecodeEnvText(ExportLine(e) + more) ==
      match DecodeEnvText(more)
      case None => None
      case Some(es) => Some([e] + es)
  {
    var text := ExportLine(e) + more;
    var rest := e.1 + "\n" + more;
    assert text == "export " + (e.0 + "=" + rest);
    assert text[..7] == "export " && text[7..] == e.0 + "=" + rest;
    SplitAtFirstOf(e.0, '=', rest);
    SplitAtFirstOf(e.1, '\n', more);
  }

  /**
   * The rendered block is lossless: when names hold no `=` and values no newline,
   * reading it back gives the entries, in order.
   */
  lemma {:induction false} EnvTextRoundTrip(es: seq<Entry>)
    requires forall i :: 0 <= i < |es| ==> '=' !in es[i].0 && '\n' !in es[i].1
    ensures DecodeEnvText(EnvText(es)) == Some(es)
    decreases |es|
  {
    if es != [] {
      EnvTextRoundTrip(es[1..]);
      DecodeExportLine(es[0], EnvText(es[1..]));
      assert [es[0]] + es[1..] == es;
    }
  }
}
