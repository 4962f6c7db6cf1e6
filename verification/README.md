# marquez-airflow extractors and git-location helpers, in Dafny

This project models two small pure pieces of the marquez-airflow integration.

- **Extractor dispatch** (`extractors.dfy`, module `Extractors`). An `Extractors` registry holds an
  ordered list of extractors. For a task it returns the first one whose `can_extract` accepts it.
  When none does, it returns a built-in `DefaultExtractor`. Each extractor builds an
  `AirflowTaskMeta` lineage record. The default sets only the task name
  (`<dag_id>.<task_id>`). The Postgres extractor also sets the `POSTGRESQL` source type, the
  task's `postgres_conn_id`, and the input and output tables that the SQL parser reports.
- **Git remote normalisation** (`utils.dfy`, module `Utils`). `url_to_https` turns an scp-style
  remote `git@host:path` into `https://host/path`. It passes an `https://` URL through, drops one
  trailing `.git`, and raises `ValueError` on anything else. `get_location` joins that base URL
  with a commit id, a repository-relative directory and a file name into a blob URL.

`strings.dfy` (module `Strings`) gives the Python `str` operations the code uses:
`startswith`, `endswith` and `replace(a, b, 1)`. `FindFrom` is the search behind the model of
`split('git@')[1]` (`Utils.HostPath`). `Count` exists only for the lemma
`ReplaceFirstRemovesExactlyOne`.
`wrappers.dfy` gives `Option`, which stands for an unset keyword argument, and `Result`, which
stands for a call that may raise.

The SQL parser that the Postgres extractor calls (`marquez_airflow/sql/parser.py`) is not part of
this model. It is the function-typed parameter `parse: string -> SqlMeta`. Nothing is assumed
about it: no deduplication, no CTE handling, no error recovery. The only proved fact is that its
two lists reach the record unchanged.

The code has no check for a missing `dag_id` or `task_id`, so `TaskName` is total.
The default extractor is not part of the registered list; `extractor_for_task` returns it after
the loop (marquez_airflow/extractors.py:28, 35).

## Model

| member | source | states |
|---|---|---|
| Extractors.TaskName | marquez_airflow/extractors.py:21-22 | the name is the DAG id, then one `.`, then the task id, and nothing else |
| Extractors.TaskNameRoundTrip | marquez_airflow/extractors.py:21-22 | when the DAG id has no dot, cutting the name at its first dot gives back the DAG id and the task id |
| Extractors.TaskNameAmbiguous | marquez_airflow/extractors.py:21-22 | two different tasks, (`a.b`, `c`) and (`a`, `b.c`), get the same name, because ids may contain dots |
| Extractors.CanExtract | marquez_airflow/extractors.py:60-81 | a task is accepted exactly when the extractor is the default or the task is a Postgres-operator task: a non-Postgres task is accepted only by the default, a Postgres task by every extractor |
| Extractors.CanExtractCases | marquez_airflow/extractors.py:60-81 | the default accepts every task; the Postgres extractor accepts a task exactly when it is a Postgres-operator task |
| Extractors.Extract | marquez_airflow/extractors.py:57-78 | every record has the task name; the source type is set exactly for the Postgres extractor; the default leaves source name, inputs and outputs unset; the Postgres record has `POSTGRESQL`, the task's connection id, and the parser's `in_tables`/`out_tables` unchanged |
| Extractors.FirstMatch | marquez_airflow/extractors.py:30-33 | the index found is the first one whose extractor accepts the task; no earlier extractor accepts it; it is the list length when none does |
| Extractors.FirstMatchIsUnique | marquez_airflow/extractors.py:30-33 | any index with no match before it, and a match at it or the end of the list there, is the index the search returns |
| Extractors.ExtractorFor | marquez_airflow/extractors.py:25-35 | selection is total; the chosen extractor accepts the task; it is a registered extractor or the default; with no match it is the default; otherwise it sits at a registered position with no accepting extractor before it |
| Extractors.SelectExtractor | marquez_airflow/extractors.py:30-35 | the source's `for` loop with early return selects the same extractor as `ExtractorFor`, and that extractor accepts the task |
| Extractors.EmptyRegistryGivesDefault | marquez_airflow/extractors.py:26-35 | an empty registry always yields the default extractor |
| Extractors.PostgresRegistrySelection | marquez_airflow/extractors.py:30-35 | with only the Postgres extractor registered, Postgres tasks get it and every other task gets the default |
| Extractors.SelectionOverConcatenation | marquez_airflow/extractors.py:30-35 | extractors registered after a matching one never change the choice; when nothing earlier matches, the later extractors alone decide |
| Extractors.NotReachableWhenDefaultFirst | marquez_airflow/extractors.py:30-33 | a default extractor registered first shadows a Postgres extractor registered after it |
| Extractors.LineageIffPostgresSelected | marquez_airflow/extractors.py:30-81 | dispatch followed by extraction always names the task; the record has lineage exactly when the task is a Postgres task and a Postgres extractor is registered before any default extractor |
| Extractors.EndToEndExample | marquez_airflow/extractors.py:70-78 | the `daily_etl.load_users` Postgres task yields the record with its name, `POSTGRESQL`, its connection id, input `staging_users` and output `users`, given the parser reports those tables |
| Strings.ReplaceFirst | marquez_airflow/utils.py:24 | `replace(":", "/", 1)` keeps the length and rewrites only the first colon; a string with no colon is unchanged |
| Strings.ReplaceFirstRemovesExactlyOne | marquez_airflow/utils.py:24 | replacing the first colon removes exactly one colon; no colon is left up to that position; every later colon is kept |
| Utils.Message | marquez_airflow/utils.py:29 | the error text is `Unable to extract location from: ` followed by the whole URL, and nothing else |
| Utils.HostPath | marquez_airflow/utils.py:22 | `split('git@')[1]` is a prefix of the text after the leading `git@`; it contains no `git@`; it ends at the end of the URL or just before the next `git@` |
| Utils.StripGitSuffix | marquez_airflow/utils.py:31-32 | a trailing `.git` is removed once: the result plus `.git` is the input; an input without that suffix is unchanged |
| Utils.StripKeepsScheme | marquez_airflow/utils.py:31-33 | removing `.git` never cuts into the `https://` scheme |
| Utils.UrlToHttps | marquez_airflow/utils.py:19-33 | it raises the `ValueError` that names the URL (its text is `Message`) exactly when the URL starts with neither `git@` nor `https://`; every result starts with `https://`; an `https://` URL comes back with at most one trailing `.git` removed; a `git@` URL becomes `https://` plus its host/path segment with the first colon made a slash, then at most one `.git` removed |
| Utils.ScpRemoteToHttps | marquez_airflow/utils.py:21-33 | `git@host:path.git` becomes `https://host/path` when the host has no colon and no second `git@` follows; colons in the path are kept |
| Utils.ScpSegmentToHttps | marquez_airflow/utils.py:22-33 | once the segment is `host:path.git`, the result is `https://host/path` |
| Utils.HttpsUrlPassesThrough | marquez_airflow/utils.py:25-33 | `https://github.com/org/repo` comes back unchanged |
| Utils.DoubleGitSuffixLosesOne | marquez_airflow/utils.py:31-33 | `https://github.com/org/repo.git.git` becomes `https://github.com/org/repo.git`: only one suffix is removed |
| Utils.HttpUrlRefused | marquez_airflow/utils.py:21-29 | an `http://` URL raises the `ValueError` that names it |
| Utils.StripAppendedSuffix | marquez_airflow/utils.py:31-32 | appending `.git` and stripping it gives back the URL |
| Utils.BlobUrl | marquez_airflow/utils.py:54 | the location starts with `<base>/blob/<commit>/`, ends with `<relpath><filename>`, and has nothing else in between |
| Utils.GetLocation | marquez_airflow/utils.py:53-54 | it fails exactly when `url_to_https` fails, with the same error; otherwise it is the blob URL under the converted base, and so starts with `https://` |
| Utils.LocationDecomposes | marquez_airflow/utils.py:54 | the blob URL splits back into the base URL, `/blob/`, the commit id up to the next `/`, and the relative path followed by the file name |

## Left out

- SQL parsing (`SqlParser.parse`, marquez_airflow/sql/parser.py) is not part of this model. It is the parameter `parse`. Nothing is modelled about it: no deduplication, no aliases, no CTE exclusion, no degraded parsing, and no exception it might raise.
- `isinstance(task, PostgresOperator)` is modelled by the `Operator` tag on `Task`, because the model has no class hierarchy. A subclass of `PostgresOperator` is a `PostgresOperator` task here.
- Extractors.Extract: requires that the extractor accepts the task. In the source, `PostgresExtractor.extract` on a task that is not a Postgres task would read `task.sql` and `task.postgres_conn_id`. That is an `AttributeError`, or it works by accident if some other operator happens to have those attributes. The model gives only Postgres tasks those fields, and dispatch never makes such a call.
- `BaseExtractor`'s `NotImplementedError` stubs (marquez_airflow/extractors.py:38-49) are not modelled. They are an abstract interface; the `Extractor` datatype lists its two implementations.
- `AirflowTaskMeta` and `SourceType` (marquez_airflow/models.py and the marquez client) are not part of this model. They are plain datatypes here: unset optional fields are `None`, and `SourceType` has only the `POSTGRESQL` value that the code uses.
- `execute_git` and the three git calls in `get_location` (marquez_airflow/utils.py:44-50 and 57-62) are subprocess I/O with a timeout. Their stripped outputs (remote URL, relative path, commit id) are parameters of `Utils.GetLocation`.
- `os.path.abspath`, `basename` and `dirname` in `get_location` (marquez_airflow/utils.py:39-41) are also left out; the file name is a parameter.
- `get_conn` (marquez_airflow/utils.py:65-70) is a database query through Airflow's ORM and is not modelled.
- Utils.ScpRemoteToHttps: covers only remotes whose host has no colon and that contain no second `git@`. `Utils.UrlToHttps` and `Utils.HostPath` state the general behaviour.
