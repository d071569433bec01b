# nerscspawner: job id, job environment, status patterns and requirements, in Dafny

This project models the logic of the NERSC Slurm spawner for JupyterHub
(`NERSCSlurmSpawner` in `nerscspawner/nerscspawner.py`) and of the requirements
filter in `setup.py`, and proves properties of that model:

- **Job id** (`JobId`): `parse_job_id` splits the `sbatch` output on the single
  space character and returns the last field unchanged when `int()` accepts it; otherwise it fails
  with the line it writes to the error log. `str.split(' ')` is modelled by
  `SplitOnSpace`, and `JoinOnSpace` (`' '.join`) is proved to be its inverse in
  both directions.
- **Status patterns** (`StatusPatterns`): the pending and running patterns are
  prefix tests on the status text; the exec-host pattern is an extractor whose
  result is proved equal to the group of every match of the regular expression,
  described independently by match positions.
- **Job environment** (`Environment`, `EnvText`): a Python dict is an
  insertion-ordered sequence of (name, value) entries with distinct names;
  `get_env` updates such an environment object in place, and `_req_env_text`
  renders it as one `export NAME=value` line per entry. A decoder proves the
  rendering lossless when no name contains `=` and no value contains a newline;
  entries that break this are rendered verbatim and do not decode back.
- **Requirements** (`Requirements`): the `install_requires` loop of `setup.py`
  over the lines of the requirements file.

`parse_job_id` splits on the single space character only, not on whitespace: a
tab or a newline before the id stays inside the last field, and a trailing
newline is kept in the returned id when `int()` accepts it.

## Model

| member | source | states |
|---|---|---|
| `JobId.SplitOnSpace` | nerscspawner/nerscspawner.py:74 | `split(' ')` yields at least one field and no field contains a space |
| `JobId.SplitThenJoin` | nerscspawner/nerscspawner.py:74 | joining the fields with single spaces gives back the output |
| `JobId.JoinThenSplit` | nerscspawner/nerscspawner.py:74 | splitting the join of space-free fields recovers exactly those fields |
| `JobId.SplitAppendField` | nerscspawner/nerscspawner.py:74 | a space then space-free text adds exactly that text as the new last field |
| `JobId.LastField` | nerscspawner/nerscspawner.py:74 | `split(' ')[-1]` is a space-free suffix of the output, either all of it or preceded by a space |
| `JobId.LastFieldUnique` | nerscspawner/nerscspawner.py:74 | that characterisation determines the last field |
| `JobId.ParseJobId` | nerscspawner/nerscspawner.py:71-79 | succeeds exactly when the last field is an integer literal, returns that field itself (space-free, not normalised), and on failure returns no id but the logged line with the raw output |
| `JobId.IsIntLiteral` | nerscspawner/nerscspawner.py:75 | what `int()` accepts: optional surrounding ASCII whitespace, an optional sign, then ASCII digits with single underscores between digits |
| `JobId.DigitsAreIntLiteral` | nerscspawner/nerscspawner.py:75 | a non-empty string of digits is accepted by `int()` |
| `JobId.ParseJobIdAfterSpace` | nerscspawner/nerscspawner.py:74-75 | for any text `p` and non-empty digit string `n`, parsing `p + " " + n` gives `n` |
| `JobId.ParseSubmittedBatchJob` | nerscspawner/nerscspawner.py:71-79 | the sample submit output "Submitted batch job 209" parses to "209" |
| `JobId.ParseJobIdNoSpace` | nerscspawner/nerscspawner.py:74-75 | output without a space is its own candidate id |
| `JobId.ParseJobIdTrailingSpace` | nerscspawner/nerscspawner.py:74-75 | output ending in a space has an empty last field and fails |
| `StatusPatterns.IsPending` | nerscspawner/nerscspawner.py:67 | the pending pattern: the status starts with PENDING or CONFIGURING |
| `StatusPatterns.IsRunning` | nerscspawner/nerscspawner.py:68 | the running pattern: the status starts with RUNNING or COMPLETING |
| `StatusPatterns.PendingExcludesRunning` | nerscspawner/nerscspawner.py:67-68 | no status text matches both the pending and the running pattern |
| `StatusPatterns.PendingAndEmptyScenarios` | nerscspawner/nerscspawner.py:67-69 | "PENDING" is pending and not running; the empty status is neither and has no host |
| `StatusPatterns.ExecHost` | nerscspawner/nerscspawner.py:69 | an extracted host is host-shaped: word characters, `-` and single dots, not starting with a dot |
| `StatusPatterns.ExecHostSound` | nerscspawner/nerscspawner.py:69 | every extracted host is the group of a match of `\s+((?:[\w_-]+\.?)+)$` |
| `StatusPatterns.ExecHostComplete` | nerscspawner/nerscspawner.py:69 | every match of the pattern has the extracted host as its group, so a status with no match yields no host |
| `StatusPatterns.RunningStatusScenario` | nerscspawner/nerscspawner.py:61-69 | "RUNNING nid00042" is running, not pending, and its exec host is "nid00042" |
| `Environment.Assign` | nerscspawner/nerscspawner.py:98 | `env[k] = v` keeps the names in order and appends a new name last |
| `Environment.AssignMap` | nerscspawner/nerscspawner.py:98 | `env[k] = v` keeps the names distinct and changes the mapping at `k` only |
| `Environment.AssignAll` | nerscspawner/nerscspawner.py:86-95 | `env.update(other)`: the entries of `other` are assigned one by one, in order |
| `Environment.AssignAllMap` | nerscspawner/nerscspawner.py:86-95 | `env.update(other)` keeps names distinct and in place and gives the mapping of `env` overridden by `other` |
| `Environment.Env.constructor` | nerscspawner/nerscspawner.py:84 | the environment starts as the inherited one |
| `Environment.Env.Set` | nerscspawner/nerscspawner.py:98 | the object's entries become the assignment of the old ones; its mapping is updated at one name |
| `Environment.Env.Update` | nerscspawner/nerscspawner.py:86-95 | the object's mapping becomes the old one overridden by the overlay, existing names keeping their place |
| `Environment.GetEnv` | nerscspawner/nerscspawner.py:82-107 | a fresh environment object holding the inherited entries after the overlay, the notebook directory and the two API URLs |
| `Environment.NerscEnv` | nerscspawner/nerscspawner.py:82-107 | the environment `get_env` returns: the inherited one updated by the overlay, then NOTEBOOK_DIR when set, then the two API URLs |
| `Environment.NerscEnvMap` | nerscspawner/nerscspawner.py:82-107 | the result has distinct names, keeps the inherited names at its front, and stands for the inherited mapping overridden step by step |
| `Environment.GetEnvOverrides` | nerscspawner/nerscspawner.py:86-95 | JPY_USER, JPY_COOKIE_NAME, JPY_BASE_URL and PATH come from their sources, both hub prefixes are the hub base URL, overriding inherited values |
| `Environment.GetEnvKeepsOthers` | nerscspawner/nerscspawner.py:84-107 | every other name is present exactly when inherited, with the inherited value |
| `Environment.GetEnvNotebookDir` | nerscspawner/nerscspawner.py:97-98 | NOTEBOOK_DIR is written exactly when the notebook directory is non-empty; otherwise it is as inherited |
| `Environment.GetEnvHubApiUrl` | nerscspawner/nerscspawner.py:100-105 | JPY_HUB_API_URL and JUPYTERHUB_API_URL are equal: the configured hub API URL if non-empty, else the hub's |
| `Environment.GetEnvOrder` | nerscspawner/nerscspawner.py:84-107 | the result is a dict again and the inherited names keep their order at its front |
| `EnvText.ExportLine` | nerscspawner/nerscspawner.py:36 | the line of one entry: `export `, the name, `=`, the value, a newline |
| `EnvText.EnvText` | nerscspawner/nerscspawner.py:34-37 | the environment block: the export lines of all entries, concatenated in order |
| `EnvText.EnvTextAppend` | nerscspawner/nerscspawner.py:35-36 | rendering one more entry appends its export line |
| `EnvText.RenderEnvText` | nerscspawner/nerscspawner.py:34-37 | the loop's text is the export lines of all entries, in order |
| `EnvText.ReqEnvText` | nerscspawner/nerscspawner.py:31-37 | the environment block is the export lines of `get_env`'s result, in its order |
| `EnvText.EnvTextNewlines` | nerscspawner/nerscspawner.py:33-37 | with no newline inside names and values there is exactly one newline per entry (none for the empty environment) |
| `EnvText.EnvTextRoundTrip` | nerscspawner/nerscspawner.py:36 | when names hold no `=` and values no newline, decoding the block gives back the entries in order |
| `PyText.Trim` | setup.py:48 | trimming returns the slice of the text after its leading run of whitespace, followed only by whitespace, with non-whitespace ends, and empty exactly when the text is all whitespace |
| `PyText.Strip` | setup.py:48 | `line.strip()` is trimming with Python's `isspace` characters |
| `PyText.StripIdempotent` | setup.py:48 | stripping an already stripped line changes nothing |
| `Requirements.Kept` | setup.py:49-51 | the stripped lines that are non-empty and start with neither `-e` nor `#`, in order |
| `Requirements.RequirementsOf` | setup.py:47-51 | the requirements of the file: every line stripped, then filtered |
| `Requirements.InstallRequires` | setup.py:46-51 | the loop's list is the requirements of the lines |
| `Requirements.RequirementsAreKeptLines` | setup.py:47-51 | the j-th requirement is the stripped line at the j-th kept position, positions increase, and every line that strips to a requirement is kept |
| `Requirements.KeptAreRequirements` | setup.py:49-51 | every kept entry is non-empty and starts with neither `-e` nor `#` |
| `Requirements.SkippedLinesAbsent` | setup.py:49-50 | a line that strips to nothing, to `-e…` or to `#…` never appears in the list |
| `Requirements.OtherLinesKept` | setup.py:47-51 | every other line appears in the list, stripped |
| `Requirements.RequirementsNoLonger` | setup.py:47-51 | the list is no longer than the file |
| `Requirements.SetupInstallRequires` | setup.py:44-51 | the list exists exactly when setuptools has been imported, and then it is the requirements of the lines |

## Left out

- The batch lifecycle of the `batchspawner` base class (submitting, polling, cancelling, the order in which the status patterns are applied, state persistence, timeouts): batchspawner is not part of this model.
- The command templates and the batch script (`batch_script`, `prefix`, `batch_submit_cmd`, `batch_query_cmd`, `batch_cancel_cmd`, `req_*` settings): configuration strings rendered by the base class, with no logic of their own here.
- The framework around the spawner: traitlets, the `@default` hook that computes `req_env_text` once, `super().get_env()` (a parameter, the inherited environment), and the user and hub objects (the `Settings` values).
- The error logger and the exception type: `parse_job_id`'s failure is a value carrying the logged line; the re-raised `ValueError` is not modelled.
- JobId.ParseJobId: accepts only ASCII digits and ASCII whitespace around the literal; `int()` also accepts other Unicode decimal digits and Unicode whitespace, which the model rejects.
- StatusPatterns.ExecHost: `\w` is restricted to ASCII letters, digits and the underscore; other Unicode word characters are not host characters in the model.
- Running the exec-host pattern as a regular expression engine: the extractor is a string function, proved equal to the pattern's match group.
- The file reads and packaging of `setup.py` (reading `version.py` with `exec`, opening `requirements.txt`, the `setup()` call, the `sys.modules` lookup): the lines are a parameter and the setuptools check is a boolean.
- `jupyterhub_config.py`: deployment data with no logic.
- Profile selection, the allocation-default lookup and SSH execution: not part of the modelled files.
