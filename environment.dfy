/**
 * The job environment of the Slurm spawner: `get_env` overlays the spawner's own
 * variables onto the inherited environment, and `_req_env_text` renders the result
 * as one `export NAME=value` line per entry for the batch script.
 *
 * A Python dict keeps insertion order, and the rendered text follows it, so an
 * environment is an ordered sequence of (name, value) entries with distinct names.
 */
module Environment {
  type Entry = (string, string)

  /** The names of the entries, in order. */
  function Keys(es: seq<Entry>): (ks: seq<string>)
    ensures |ks| == |es| && forall i :: 0 <= i < |es| ==> ks[i] == es[i].0
  {
    seq(|es|, i requires 0 <= i < |es| => es[i].0)
  }

  /** What a dict guarantees: no name occurs twice. */
  ghost predicate UniqueKeys(es: seq<Entry>) {
    forall i, j :: 0 <= i < j < |es| ==> es[i].0 != es[j].0
  }

  /** The mapping an ordered environment stands for (a later entry wins, as in `dict(pairs)`). */
  function ToMap(es: seq<Entry>): map<string, string>
    decreases |es|
  {
    if es == [] then map[] else ToMap(es[..|es| - 1])[es[|es| - 1].0 := es[|es| - 1].1]
  }

  /** The names in the mapping are exactly the names of the entries. */
  lemma {:induction false} ToMapDomain(es: seq<Entry>)
    ensures forall k :: k in ToMap(es) <==> k in Keys(es)
    decreases |es|
  {
    if es != [] {
      var init := es[..|es| - 1];
      ToMapDomain(init);
      assert Keys(es) == Keys(init) + [es[|es| - 1].0];
    }
  }

  /** With distinct names, each entry's value is what the mapping holds for its name. */
  lemma {:induction false} ToMapLookup(es: seq<Entry>, i: int)
    requires UniqueKeys(es) && 0 <= i < |es|
    ensures es[i].0 in ToMap(es) && ToMap(es)[es[i].0] == es[i].1
    decreases |es|
  {
    if i < |es| - 1 {
      ToMapLookup(es[..|es| - 1], i);
    }
  }

  /** The position of a name that occurs among the entries. */
  function IndexOf(es: seq<Entry>, k: string): (i: nat)
    requires k in Keys(es)
    ensures i < |es| && es[i].0 == k
    decreases |es|
  {
    if es[0].0 == k then 0
    else
      assert Keys(es[1..]) == Keys(es)[1..];
      1 + IndexOf(es[1..], k)
  }

  /**
   * `d[k] = v` on an insertion-ordered dict: an existing name keeps its place and
   * takes the new value, a new name goes last.
   */
  function Assign(es: seq<Entry>, k: string, v: string): (r: seq<Entry>)
    ensures k in Keys(es) ==> Keys(r) == Keys(es)
    ensures k !in Keys(es) ==> Keys(r) == Keys(es) + [k]
  {
    if k in Keys(es) then es[IndexOf(es, k) := (k, v)] else es + [(k, v)]
  }

  /** Assignment keeps the names distinct and updates the mapping at that one name. */
  lemma AssignMap(es: seq<Entry>, k: string, v: string)
    requires UniqueKeys(es)
    ensures UniqueKeys(Assign(es, k, v))
    ensures ToMap(Assign(es, k, v)) == ToMap(es)[k := v]
  {
    var r := Assign(es, k, v);
    if k in Keys(es) {
      var n := IndexOf(es, k);
      assert forall j :: 0 <= j < |r| ==> r[j].0 == Keys(es)[j];
      ToMapDomain(es);
      ToMapDomain(r);
      forall key | key in ToMap(r)
        ensures key in ToMap(es)[k := v] && ToMap(r)[key] == ToMap(es)[k := v][key]
      {
        var j :| 0 <= j < |r| && Keys(r)[j] == key;
        ToMapLookup(r, j);
        if j != n {
          ToMapLookup(es, j);
        }
      }
    } else {
      assert r[..|es|] == es;
    }
  }

  /** `d.update(other)`: assigns the entries of `other` in order. */
  function AssignAll(es: seq<Entry>, other: seq<Entry>): seq<Entry>
    decreases |other|
  {
    if other == [] then es
    else
      var last := other[|other| - 1];
      Assign(AssignAll(es, other[..|other| - 1]), last.0, last.1)
  }

  /** `update` keeps the names distinct, keeps the existing names in place, and overrides with `other`. */
  lemma {:induction false} AssignAllMap(es: seq<Entry>, other: seq<Entry>)
    requires UniqueKeys(es)
    ensures UniqueKeys(AssignAll(es, other))
    ensures ToMap(AssignAll(es, other)) == ToMap(es) + ToMap(other)
    ensures Keys(es) <= Keys(AssignAll(es, other))
    decreases |other|
  {
    if other != [] {
      var init, last := other[..|other| - 1], other[|other| - 1];
      var mid := AssignAll(es, init);
      AssignAllMap(es, init);
      AssignMap(mid, last.0, last.1);
      assert ToMap(other) == ToMap(init)[last.0 := last.1];
      assert ToMap(AssignAll(es, other)) == ToMap(mid)[last.0 := last.1];
      UnionThenUpdate(ToMap(es), ToMap(init), last.0, last.1);
      PrefixTransitive(Keys(es), Keys(mid), Keys(AssignAll(es, other)));
    }
  }

  lemma UnionThenUpdate(a: map<string, string>, b: map<string, string>, k: string, v: string)
    ensures (a + b)[k := v] == a + b[k := v]
  {
  }

  lemma PrefixTransitive(a: seq<string>, b: seq<string>, c: seq<string>)
    requires a <= b && b <= c
    ensures a <= c
  {
    assert c[..|a|] == b[..|a|];
  }

  /** An environment object updated in place, as `get_env` does with its dict. */
  class Env {
    var entries: seq<Entry>

    ghost predicate Valid()
      reads this
    {
      UniqueKeys(entries)
    }

    function AsMap(): map<string, string>
      reads this
    {
      ToMap(entries)
    }

    constructor (base: seq<Entry>)
      requires UniqueKeys(base)
      ensures Valid() && entries == base
    {
      entries := base;
    }

    /** `env[k] = v`. */
    method Set(k: string, v: string)
      requires Valid()
      modifies this
      ensures Valid() && entries == Assign(old(entries), k, v)
      ensures AsMap() == old(AsMap())[k := v]
      ensures Keys(old(entries)) <= Keys(entries)
    {
      AssignMap(entries, k, v);
      entries := Assign(entries, k, v);
    }

    /** `env.update(other)`. */
    method Update(other: seq<Entry>)
      requires Valid()
      modifies this
      ensures Valid() && entries == AssignAll(old(entries), other)
      ensures AsMap() == old(AsMap()) + ToMap(other)
      ensures Keys(old(entries)) <= Keys(entries)
    {
      for n := 0 to |other|
        invariant Valid() && entries == AssignAll(old(entries), other[..n])
      {
        assert other[..n + 1][..n] == other[..n];
        Set(other[n].0, other[n].1);
      }
      assert other[..|other|] == other;
      AssignAllMap(old(entries), other);
    }
  }

  /** The spawner attributes `get_env` reads, passed in as plain values. */
  datatype Settings = Settings(
    userName: string,            // user.name
    cookieName: string,          // user.server.cookie_name
    userBaseUrl: string,         // user.server.base_url
    hubBaseUrl: string,          // hub.server.base_url
    path: string,                // the spawner's path
    notebookDir: string,         // notebook_dir
    hubApiUrl: string,           // hub.api_url
    configuredHubApiUrl: string  // the spawner's hub_api_url setting
  )

  /** The entries `get_env` passes to `update`, in keyword order. */
  function Overlay(s: Settings): seq<Entry> {
    [ ("JPY_USER", s.userName),
      ("JPY_COOKIE_NAME", s.cookieName),
      ("JPY_BASE_URL", s.userBaseUrl),
      ("JPY_HUB_PREFIX", s.hubBaseUrl),
      ("JUPYTERHUB_PREFIX", s.hubBaseUrl),
      ("PATH", s.path) ]
  }

  /** The hub API URL: the configured one unless it is empty. */
  function HubApiUrl(s: Settings): string {
    if s.configuredHubApiUrl != "" then s.configuredHubApiUrl else s.hubApiUrl
  }

  /** The environment `get_env` returns for inherited environment `base`. */
  function NerscEnv(base: seq<Entry>, s: Settings): seq<Entry> {
    WithHubApiUrl(WithNotebookDir(AssignAll(base, Overlay(s)), s), s)
  }

  /** NOTEBOOK_DIR is assigned only for a non-empty notebook directory. */
  function WithNotebookDir(es: seq<Entry>, s: Settings): seq<Entry> {
    if s.notebookDir != "" then Assign(es, "NOTEBOOK_DIR", s.notebookDir) else es
  }

  /** Both API URL variables are assigned the chosen hub API URL. */
  function WithHubApiUrl(es: seq<Entry>, s: Settings): seq<Entry> {
    var url := HubApiUrl(s);
    Assign(Assign(es, "JPY_HUB_API_URL", url), "JUPYTERHUB_API_URL", url)
  }

  /** `get_env`: starts from the inherited environment and updates it in place. */
  method GetEnv(base: seq<Entry>, s: Settings) returns (env: Env)
    requires UniqueKeys(base)
    ensures fresh(env) && env.Valid() && env.entries == NerscEnv(base, s)
  {
    env := new Env(base);
    env.Update(Overlay(s));
    if s.notebookDir != "" {
      env.Set("NOTEBOOK_DIR", s.notebookDir);
    }
    var hubApiUrl := s.hubApiUrl;
    if s.configuredHubApiUrl != "" {
      hubApiUrl := s.configuredHubApiUrl;
    }
    env.Set("JPY_HUB_API_URL", hubApiUrl);
    env.Set("JUPYTERHUB_API_URL", hubApiUrl);
  }

  /** The mapping of the overlay: six distinct names. */
  lemma OverlayMap(s: Settings)
    ensures ToMap(Overlay(s)) == map[
      "JPY_USER" := s.userName, "JPY_COOKIE_NAME" := s.cookieName, "JPY_BASE_URL" := s.userBaseUrl,
      "JPY_HUB_PREFIX" := s.hubBaseUrl, "JUPYTERHUB_PREFIX" := s.hubBaseUrl, "PATH" := s.path]
  {
    var o := Overlay(s);
    var m0: map<string, string> := map[];
    assert ToMap(o[..1]) == m0[o[0].0 := o[0].1] by { assert o[..1][..0] == []; }
    assert ToMap(o[..2]) == ToMap(o[..1])[o[1].0 := o[1].1] by { assert o[..2][..1] == o[..1]; }
    assert ToMap(o[..3]) == ToMap(o[..2])[o[2].0 := o[2].1] by { assert o[..3][..2] == o[..2]; }
    assert ToMap(o[..4]) == ToMap(o[..3])[o[3].0 := o[3].1] by { assert o[..4][..3] == o[..3]; }
    assert ToMap(o[..5]) == ToMap(o[..4])[o[4].0 := o[4].1] by { assert o[..5][..4] == o[..4]; }
    assert ToMap(o) == ToMap(o[..5])[o[5].0 := o[5].1] by { assert o[..5] == o[..|o| - 1]; }
  }

  /** The mapping after the overlay: inherited values overridden by the six overlay entries. */
  lemma OverlaidMap(base: seq<Entry>, s: Settings)
    requires UniqueKeys(base)
    ensures UniqueKeys(AssignAll(base, Overlay(s)))
    ensures Keys(base) <= Keys(AssignAll(base, Overlay(s)))
    ensures ToMap(AssignAll(base, Overlay(s))) == ToMap(base) + map[
      "JPY_USER" := s.userName, "JPY_COOKIE_NAME" := s.cookieName, "JPY_BASE_URL" := s.userBaseUrl,
      "JPY_HUB_PREFIX" := s.hubBaseUrl, "JUPYTERHUB_PREFIX" := s.hubBaseUrl, "PATH" := s.path]
  {
    AssignAllMap(base, Overlay(s));
    OverlayMap(s);
  }

  lemma NotebookDirMap(es: seq<Entry>, s: Settings)
    requires UniqueKeys(es)
    ensures UniqueKeys(WithNotebookDir(es, s)) && Keys(es) <= Keys(WithNotebookDir(es, s))
    ensures ToMap(WithNotebookDir(es, s)) ==
      if s.notebookDir != "" then ToMap(es)["NOTEBOOK_DIR" := s.notebookDir] else ToMap(es)
  {
    if s.notebookDir != "" {
      AssignMap(es, "NOTEBOOK_DIR", s.notebookDir);
    }
  }

  lemma HubApiUrlMap(es: seq<Entry>, s: Settings)
    requires UniqueKeys(es)
    ensures UniqueKeys(WithHubApiUrl(es, s)) && Keys(es) <= Keys(WithHubApiUrl(es, s))
    ensures ToMap(WithHubApiUrl(es, s)) ==
      ToMap(es)["JPY_HUB_API_URL" := HubApiUrl(s)]["JUPYTERHUB_API_URL" := HubApiUrl(s)]
  {
    var url := HubApiUrl(s);
    var withApi := Assign(es, "JPY_HUB_API_URL", url);
    AssignMap(es, "JPY_HUB_API_URL", url);
    AssignMap(withApi, "JUPYTERHUB_API_URL", url);
    assert Keys(withApi) <= Keys(WithHubApiUrl(es, s));
  }

  /** The names `get_env` writes itself. */
  const SetByGetEnv: set<string> := {
    "JPY_USER", "JPY_COOKIE_NAME", "JPY_BASE_URL", "JPY_HUB_PREFIX", "JUPYTERHUB_PREFIX", "PATH",
    "NOTEBOOK_DIR", "JPY_HUB_API_URL", "JUPYTERHUB_API_URL" }

  /** The mapping `get_env` produces from the inherited mapping `m0`. */
  function NerscEnvView(m0: map<string, string>, s: Settings): map<string, string> {
    var m1 := m0 + map[
      "JPY_USER" := s.userName, "JPY_COOKIE_NAME" := s.cookieName, "JPY_BASE_URL" := s.userBaseUrl,
      "JPY_HUB_PREFIX" := s.hubBaseUrl, "JUPYTERHUB_PREFIX" := s.hubBaseUrl, "PATH" := s.path];
    var m2 := if s.notebookDir != "" then m1["NOTEBOOK_DIR" := s.notebookDir] else m1;
    m2["JPY_HUB_API_URL" := HubApiUrl(s)]["JUPYTERHUB_API_URL" := HubApiUrl(s)]
  }

  /** The ordered environment `get_env` returns stands for that mapping. */
  lemma NerscEnvMap(base: seq<Entry>, s: Settings)
    requires UniqueKeys(base)
    ensures UniqueKeys(NerscEnv(base, s))
    ensures Keys(base) <= Keys(NerscEnv(base, s))
    ensures ToMap(NerscEnv(base, s)) == NerscEnvView(ToMap(base), s)
  {
    var overlaid := AssignAll(base, Overlay(s));
    var withDir := WithNotebookDir(overlaid, s);
    OverlaidMap(base, s);
    NotebookDirMap(overlaid, s);
    HubApiUrlMap(withDir, s);
    PrefixTransitive(Keys(base), Keys(overlaid), Keys(withDir));
    PrefixTransitive(Keys(base), Keys(withDir), Keys(NerscEnv(base, s)));
  }

  /**
   * The user, cookie, base URL and PATH variables come from their sources, both hub
   * prefix variables are the hub's base URL, and they override the inherited values.
   */
  lemma GetEnvOverrides(base: seq<Entry>, s: Settings)
    requires UniqueKeys(base)
    ensures var m := ToMap(NerscEnv(base, s));
      && "JPY_USER" in m && m["JPY_USER"] == s.userName
      && "JPY_COOKIE_NAME" in m && m["JPY_COOKIE_NAME"] == s.cookieName
      && "JPY_BASE_URL" in m && m["JPY_BASE_URL"] == s.userBaseUrl
      && "JPY_HUB_PREFIX" in m && m["JPY_HUB_PREFIX"] == s.hubBaseUrl
      && "JUPYTERHUB_PREFIX" in m && m["JUPYTERHUB_PREFIX"] == s.hubBaseUrl
      && "PATH" in m && m["PATH"] == s.path
  {
    NerscEnvMap(base, s);
    ViewOverrides(ToMap(base), s);
  }

  lemma ViewOverrides(m0: map<string, string>, s: Settings)
    ensures var m := NerscEnvView(m0, s);
      && "JPY_USER" in m && m["JPY_USER"] == s.userName
      && "JPY_COOKIE_NAME" in m && m["JPY_COOKIE_NAME"] == s.cookieName
      && "JPY_BASE_URL" in m && m["JPY_BASE_URL"] == s.userBaseUrl
      && "JPY_HUB_PREFIX" in m && m["JPY_HUB_PREFIX"] == s.hubBaseUrl
      && "JUPYTERHUB_PREFIX" in m && m["JUPYTERHUB_PREFIX"] == s.hubBaseUrl
      && "PATH" in m && m["PATH"] == s.path
  {
  }

  /** Every other inherited variable is kept with its value, and nothing else is added. */
  lemma GetEnvKeepsOthers(base: seq<Entry>, s: Settings, k: string)
    requires UniqueKeys(base) && k !in SetByGetEnv
    ensures var m := ToMap(NerscEnv(base, s));
      (k in m <==> k in ToMap(base)) && (k in m ==> m[k] == ToMap(base)[k])
  {
    NerscEnvMap(base, s);
  }

  /** NOTEBOOK_DIR is written only when a notebook directory is configured. */
  lemma GetEnvNotebookDir(base: seq<Entry>, s: Settings)
    requires UniqueKeys(base)
    ensures var m := ToMap(NerscEnv(base, s));
      && (s.notebookDir != "" ==> "NOTEBOOK_DIR" in m && m["NOTEBOOK_DIR"] == s.notebookDir)
      && (s.notebookDir == "" ==> ("NOTEBOOK_DIR" in m <==> "NOTEBOOK_DIR" in ToMap(base)))
      && (s.notebookDir == "" && "NOTEBOOK_DIR" in m ==> m["NOTEBOOK_DIR"] == ToMap(base)["NOTEBOOK_DIR"])
  {
    NerscEnvMap(base, s);
  }

  /**
   * Both API URL variables hold the same URL: the configured hub API URL when it is
   * non-empty, the hub's own otherwise.
   */
  lemma GetEnvHubApiUrl(base: seq<Entry>, s: Settings)
    requires UniqueKeys(base)
    ensures var m := ToMap(NerscEnv(base, s));
      && "JPY_HUB_API_URL" in m && "JUPYTERHUB_API_URL" in m
      && m["JPY_HUB_API_URL"] == m["JUPYTERHUB_API_URL"]
      && m["JPY_HUB_API_URL"] == (if s.configuredHubApiUrl != "" then s.configuredHubApiUrl else s.hubApiUrl)
  {
    NerscEnvMap(base, s);
  }

  /** The result is a dict again, and the inherited variables keep their order at its front. */
  lemma GetEnvOrder(base: seq<Entry>, s: Settings)
    requires UniqueKeys(base)
    ensures UniqueKeys(NerscEnv(base, s))
    ensures Keys(base) <= Keys(NerscEnv(base, s))
  {
    NerscEnvMap(base, s);
  }
}
