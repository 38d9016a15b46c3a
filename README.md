# Deploy pipeline helpers, modelled in Dafny

Three small steps of a CI deploy pipeline, with the decision logic kept and the
I/O removed:

- **Secret/variable partitioner** (`scripts/create_kamal_secrets.py`). From the
  repository's secrets and variables it keeps the entries whose names start with
  `KAMAL_` and strips that prefix. It then builds four things:
  - the `.kamal/secrets` file, which references secrets by name and never holds a value;
  - a sourceable script of `export NAME=<quoted value>` lines;
  - the custom variables;
  - the list of custom secret names.
- **Manifest synthesizer** (`scripts/generate_kamal_config.py`). Builds the
  deployment manifest from the repository identity, the domain, the worker and
  database switches and the provisioned host addresses. It merges the custom
  variables into `env.clear` by name and appends the custom secret names to
  `env.secret`.
- **Version resolver** (`scripts/resolve_postgres_tag.py`). Keeps the listed
  image tags of the form `17.a.b.c`, ranks them by their numeric version and
  returns `supabase/postgres:<best>`. When the listing cannot be fetched, or no
  tag qualifies, it returns a failure.

Modules:

- `Wrappers` defines `Option` and `Result`.
- `OrderedMaps` models a Python dict as an insertion-ordered list of pairs.
  `Set` is item assignment: it overwrites in place or appends.
- `ShellQuote` models `shlex.quote`, and a POSIX shell reader for a single word
  to prove the quoting against.
- `Partitioner`, `Synthesizer` and `VersionResolver` model the three scripts.
- `Pipeline` chains the two deploy stages.
- `ResolverExamples` works through concrete listings.

The two scripts that update state step by step are methods with loops. Each
method is proved against a specification function:

- `CollectCustom` against `Selected`;
- `BuildExportScript` against `ExportScript`;
- `MergeCustomVars` against `SetAll`.

The resolver has no statements beyond its I/O, so it is written as functions.

## Model

| member | source | states |
|---|---|---|
| OrderedMaps.SetSpec | scripts/generate_kamal_config.py:127 | `d[k] = v` keeps keys unique, keeps the key order (appends a new key at the end), makes `k` map to `v` and leaves every other key's value unchanged |
| OrderedMaps.SetAllSpec | scripts/generate_kamal_config.py:126-127 | assigning every item of `u` in order: keys stay unique; keys are the old keys then the new ones in `u`'s order; a key of `u` gets `u`'s value, every other key keeps its own |
| OrderedMaps.SetNew | scripts/generate_kamal_config.py:94-95 | assigning a key not yet present appends the pair at the end |
| OrderedMaps.GetUnique | scripts/generate_kamal_config.py:127 | in a dict with unique keys, a lookup fails exactly for absent keys and finds each present pair's value |
| Partitioner.StripPrefix | scripts/create_kamal_secrets.py:26-27 | the stripped name with `KAMAL_` put back in front is the original key |
| Partitioner.SelectedGet | scripts/create_kamal_secrets.py:24-28 | the custom map holds, for every name `n`, exactly the value the source map holds for `KAMAL_` + `n`; nothing else is in it |
| Partitioner.SelectedKeys | scripts/create_kamal_secrets.py:25-28 | re-prefixing the custom names gives the source's prefixed keys in source order, so there are as many custom entries as prefixed keys |
| Partitioner.SelectedUnique | scripts/create_kamal_secrets.py:24-28 | stripping the prefix is injective: the custom map has unique keys when the source does |
| Partitioner.CollectCustom | scripts/create_kamal_secrets.py:24-35 | the filtering loop produces `Selected(bag)`, with unique keys and the lookup law of `SelectedGet` |
| Partitioner.BuildSecretLines | scripts/create_kamal_secrets.py:38-46 | the registry line first; the three database lines next exactly when the database is enabled; then one `NAME=$NAME` line per custom secret in order, with no de-duplication; length is 1 + 3·[db] + number of custom secrets; every line is the reference line of a name, never a value |
| Partitioner.SecretsFileTerminated | scripts/create_kamal_secrets.py:48 | the lines joined with newlines plus a final newline is each line followed by a newline |
| Partitioner.BuildExportScript | scripts/create_kamal_secrets.py:52-54 | the writing loop produces one `export NAME=quote(VALUE)` line per custom secret, in order; reading the script back yields the custom secrets again when every name is a shell name and no value holds a NUL character |
| Partitioner.ExportLineRoundTrip | scripts/create_kamal_secrets.py:54 | for a shell name and a value without NUL, reading one export line back gives its name and value and leaves the rest of the script to read |
| Partitioner.ExportScriptRoundTrip | scripts/create_kamal_secrets.py:53-54 | when every name is a shell name and no value holds NUL, reading the whole export script back gives exactly the entries, in order |
| Partitioner.Partition | scripts/create_kamal_secrets.py:23-60 | the whole script: the custom vars output is `Selected(variables)` with its lookup law; the names output is the custom secrets' keys in order, and a name is present iff its prefixed form is a secret; the secrets file lines are the reference lines of registry, database and custom names, and the file text is each of those lines followed by a newline; the export script reads back to the custom secrets when their names are shell names and their values hold no NUL |
| ShellQuote.QuoteRoundTrip | scripts/create_kamal_secrets.py:54 | for a value without NUL (which a shell word cannot hold), a POSIX shell reading the quoted word, alone or followed by a newline and more text, recovers exactly the original value and the rest |
| Synthesizer.TrimStart | scripts/generate_kamal_config.py:31 | removes exactly the leading whitespace: the result is a suffix, what was removed is all whitespace, and the result does not start with whitespace |
| Synthesizer.TrimEnd | scripts/generate_kamal_config.py:31 | removes exactly the trailing whitespace, as the mirror of `TrimStart` |
| Synthesizer.StripSpec | scripts/generate_kamal_config.py:31 | `strip()` returns the infix between all-whitespace ends, neither end of which is whitespace, and is empty iff the input is all whitespace |
| Synthesizer.DefaultClearKeys | scripts/generate_kamal_config.py:94-95 | the default clear env has the keys `BLOB_STORAGE_PATH`, then `POSTGRES_HOST`, `POSTGRES_DB` when the database is enabled, all distinct |
| Synthesizer.DefaultClearValues | scripts/generate_kamal_config.py:69-95 | before merging, `BLOB_STORAGE_PATH` is `/data/blobs`; `POSTGRES_HOST` is the internal address and `POSTGRES_DB` the repository name exactly when the database is enabled; no other key is present |
| Synthesizer.MergeCustomVars | scripts/generate_kamal_config.py:126-127 | the merge loop produces `SetAll(clear, customVars)`: keys unique, old keys keep their positions, new ones appended in order, the custom value wins for every custom name |
| Synthesizer.AppendCustomSecrets | scripts/generate_kamal_config.py:128-130 | the secret list exists afterwards iff it existed or there are custom names; then it is the old list followed by the custom names |
| Synthesizer.BaseConfig | scripts/generate_kamal_config.py:41-121 | every field of the literal, as a function of the inputs. Workers exist iff enabled and there are worker hosts. Database enabled: `POSTGRES_HOST` and `POSTGRES_DB` are added, the three secret names are listed and the `db` accessory is present. Database disabled: none of those |
| Synthesizer.Generate | scripts/generate_kamal_config.py:41-130 | the finished manifest: constants; identity and registry, whose password is a name list; proxy host and TLS from the stripped domain; server groups; accessories iff database; clear env equals the defaults with custom variables overriding by name; default lookups when not overridden; `env.secret` exists iff database or custom names, and equals the database names followed by the custom names |
| Pipeline.ReferencedAreConfigured | scripts/create_kamal_secrets.py:38-46 | the names the secrets file references are the manifest's registry password followed by its `env.secret` list, in order |
| Pipeline.ClearOverrides | scripts/generate_kamal_config.py:126-127 | a custom variable overrides a default exactly when its `KAMAL_`-prefixed name was among the repository variables |
| Pipeline.Deploy | scripts/generate_kamal_config.py:124-130 | both stages in sequence: `env.secret` is the database names then the custom secret names in order, and a name is a custom secret iff its prefixed form is a repository secret; the secrets file has one reference line per manifest-referenced secret name, in order; each clear env value comes from the prefixed variable if there is one, else from the defaults |
| VersionResolver.TagPatternIffParts | scripts/resolve_postgres_tag.py:19 | the pattern automaton accepts a tag iff splitting it at dots gives four parts, `17` then three non-empty digit runs |
| VersionResolver.ParseVersion | scripts/resolve_postgres_tag.py:22-23 | an eligible tag yields a 4-tuple of naturals whose first component is 17 |
| VersionResolver.ParseVersionParts | scripts/resolve_postgres_tag.py:22-23 | the version of an eligible tag is the decimal value of each dot-separated part |
| VersionResolver.VersionOf | scripts/resolve_postgres_tag.py:19 | `17.a.b.c` with digit runs a, b, c is eligible and its version is `(17, int(a), int(b), int(c))` |
| VersionResolver.LeadingZero | scripts/resolve_postgres_tag.py:23 | a leading zero does not change a part's value |
| VersionResolver.TupleLessIrreflexive | scripts/resolve_postgres_tag.py:44 | no version is below itself under tuple ordering |
| VersionResolver.TupleLessTransitive | scripts/resolve_postgres_tag.py:44 | tuple ordering is transitive |
| VersionResolver.TupleLessTotal | scripts/resolve_postgres_tag.py:44 | any two versions are equal or one is below the other |
| VersionResolver.BestIndex | scripts/resolve_postgres_tag.py:44 | `max` with a key: no tag's version exceeds the chosen one's, and every earlier tag's version is strictly smaller (first maximum kept) |
| VersionResolver.EligibleTags | scripts/resolve_postgres_tag.py:34-38 | the filter keeps exactly the listed names the pattern accepts; order and repetitions follow from `EligibleTagsAppend` and `EligibleTagsSingle` |
| VersionResolver.EligibleTagsAppend | scripts/resolve_postgres_tag.py:34-38 | filtering a concatenated listing gives the filtered first part followed by the filtered second part, so listing order and repeated names are kept |
| VersionResolver.EligibleTagsSingle | scripts/resolve_postgres_tag.py:34-38 | a one-name listing keeps that name exactly when the pattern accepts it |
| VersionResolver.Resolve | scripts/resolve_postgres_tag.py:34-45 | a failed fetch is a failure; "no eligible tag" exactly when no listed name matches; on success the output is `supabase/postgres:` followed by a listed, eligible tag whose version no eligible tag exceeds |
| VersionResolver.ResolvePicksFirstBest | scripts/resolve_postgres_tag.py:44 | the chosen tag is the first in listing order among those of maximal version |
| ResolverExamples.NumericNotLexical | scripts/resolve_postgres_tag.py:22-23 | `17.10.0.0` ranks above `17.9.9.9`, numerically rather than as text |
| ResolverExamples.MixedListing | scripts/resolve_postgres_tag.py:34-45 | from `17.2.0.1`, `17.10.0.0`, `17.9.9.9`, `16.9.9.9`, `18.0.0.0` the result is `supabase/postgres:17.10.0.0` |
| ResolverExamples.TieKeepsFirst | scripts/resolve_postgres_tag.py:44 | `17.01.0.0` and `17.1.0.0` have equal versions and the first listed is returned |
| ResolverExamples.NoMajor17 | scripts/resolve_postgres_tag.py:40-42 | a listing without a `17.x.y.z` tag fails with "no eligible tag" |

## Left out

- Environment lookups, file reads and writes, `os.makedirs` and the summary output. Their values are parameters and results instead.
- JSON decoding and encoding. The names and variables the first stage writes are taken to be read back unchanged by the second stage.
- YAML rendering of the manifest. The manifest is a datatype whose fields follow the source's key order; `workers`, `secret` and `accessories` are `Option`s, absent when `None`.
- The HTTP request, its timeout, the `results` field, and the exit status. A listing is either the tag names or `Unreachable`; the result is a `Result`.
- The `KeyError` for a missing `REPO_NAME`, `REPO_FULL` or `REPO_OWNER`, and for a tag entry without `name`. These values are parameters.
- The `d.get` defaults for missing provisioning fields. `Provisioning` always carries all four fields; an absent field is its default value.
- VersionResolver.MatchesTagPattern: `\d` is ASCII `0-9` only, and `$` is the end of the string. Python's `\d` also accepts other Unicode decimal digits, and its `$` also matches before one trailing newline (which `int` then ignores). Such tags are not eligible in the model.
- ShellQuote.ReadWord: reads only the subset of shell syntax that quoted words use. That is bare safe characters, single quotes, and double quotes without `\`, `$` or backquote. Anything else is rejected, and so is NUL in every mode, because a shell word cannot hold it; the round trip is therefore stated for NUL-free values only.
- Partitioner.BuildExportScript: the read-back holds when every custom secret name is a shell variable name and no value holds NUL. The script text is modelled for every name and value.
- Partitioner.Partition: a source key repeated in the JSON cannot occur, because the model's maps have unique keys.
