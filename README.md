# Wazuh dynamic inventory generator, modelled in Dafny

This project models the inventory builder of `inventory/auto-generator.py`.
The script reads the optional `WAZUH_HOSTS` value. It splits the value on
commas, or uses the fixed list `server1`, `indexer1`, `dashboard1` when the
value is unset or empty. It then puts hosts 0, 1 and 2 into the groups
`wazuh_server`, `wazuh_indexer` and `wazuh_dashboard`, one host each. A host
list with fewer than three entries makes the indexing fail, and the
top-level `except` turns that into an error.

The model is pure, as the script is:

- `wrappers.dfy`, module `Wrappers`: `Option` stands for an unset or set
  variable. `Result` is `Success(inventory)` or `Failure`, replacing the
  try/except.
- `comma_split.dfy`, module `CommaSplit`: Python's `str.split(',')`
  (`SplitComma`) and `','.join` (`JoinComma`), with `s.count(',')`
  (`CountComma`) defined independently as the multiplicity of `','` in
  `multiset(s)`. The split does no trimming, keeps empty fields and always
  returns at least one field. Split and join are proved inverse in both
  directions.
- `auto_generator.dfy`, module `AutoGenerator`: `GetHosts` is `get_hosts`
  with the environment value as a parameter. `At` is one Python list index
  that can raise `IndexError`. `Build` is the dictionary literal of `main`
  under its `try`. `Generate` is `main` without its output. `Inventory`
  holds the three groups as a structured value, each a `Group` with its
  `hosts` list, mirroring `{'hosts': [...]}`.

The guard `if hosts:` is a truthiness test (`Truthy`). An empty string
therefore takes the fallback just as an unset variable does.

## Model

| member | source | states |
|---|---|---|
| `CommaSplit.SplitComma` | inventory/auto-generator.py:19 | `split(',')` returns at least one field, and no field contains a comma |
| `CommaSplit.SplitCommaCount` | inventory/auto-generator.py:19 | the split has exactly one more field than the string has commas |
| `CommaSplit.JoinSplitComma` | inventory/auto-generator.py:19 | joining the fields with "," rebuilds the string exactly: no trimming, no dropped empty fields |
| `CommaSplit.SplitJoinComma` | inventory/auto-generator.py:19 | splitting the join of a non-empty list of comma-free fields gives that list back |
| `CommaSplit.SplitCommaUnique` | inventory/auto-generator.py:19 | the split of `s` is the only non-empty list of comma-free fields whose join is `s` (both directions) |
| `CommaSplit.SplitCommaNoComma` | inventory/auto-generator.py:19 | a string without a comma splits into itself alone |
| `CommaSplit.SplitCommaField` | inventory/auto-generator.py:19 | a comma-free prefix followed by a comma splits off as the first field |
| `AutoGenerator.Truthy` | inventory/auto-generator.py:18 | the guard `if hosts:` is false exactly for `None` and `""` |
| `AutoGenerator.At` | inventory/auto-generator.py:27-29 | `hosts[i]` is `Some(hosts[i])` within range and `None` (the `IndexError`) past the end |
| `AutoGenerator.GetHosts` | inventory/auto-generator.py:15-21 | the host list is never empty; from a truthy value it consists of comma-free fields |
| `AutoGenerator.GetHostsFallback` | inventory/auto-generator.py:17-21 | an unset or empty value gives exactly `["server1","indexer1","dashboard1"]` |
| `AutoGenerator.GetHostsFromValue` | inventory/auto-generator.py:17-19 | from a non-empty value, the hosts joined with "," are the value, there are commas + 1 hosts, and none contains a comma |
| `AutoGenerator.Build` | inventory/auto-generator.py:24-33 | succeeds if and only if there are at least 3 hosts; on success each group has exactly one host, and server, indexer and dashboard get hosts 0, 1 and 2 |
| `AutoGenerator.BuildIgnoresExtraHosts` | inventory/auto-generator.py:26-30 | two host lists with the same first three hosts build equal inventories |
| `AutoGenerator.BuildHostsOf` | inventory/auto-generator.py:26-30 | building from the three hosts of a one-host-per-group inventory gives that inventory back |
| `AutoGenerator.HostsOfBuild` | inventory/auto-generator.py:26-30 | a successful build holds exactly the first three hosts, in group order |
| `AutoGenerator.Generate` | inventory/auto-generator.py:23-33 | generation succeeds if and only if at least three hosts are resolved; a generated inventory has one host per group, and those hosts are the first three resolved hosts |
| `AutoGenerator.GenerateDefault` | inventory/auto-generator.py:17-30 | an unset or empty value always succeeds, with server1, indexer1 and dashboard1 |
| `AutoGenerator.GenerateSucceedsIff` | inventory/auto-generator.py:17-33 | a non-empty value succeeds if and only if it contains at least two commas; with fewer, including none, it fails |
| `AutoGenerator.GenerateFields` | inventory/auto-generator.py:17-30 | on success from a non-empty value, the three hosts are comma-free, and `server,indexer,dashboard` is a prefix of the value ending at its end or at a comma |
| `AutoGenerator.GenerateExampleThreeHosts` | inventory/auto-generator.py:17-30 | `a,b,c` gives a, b and c in the three groups |
| `AutoGenerator.GenerateExampleOneHost` | inventory/auto-generator.py:17-33 | `onlyone` fails |

## Left out

- Reading `os.environ` (line 17) is not modelled as ambient state. The value is the `Option<string>` parameter of `GetHosts` and `Generate`.
- Printing the JSON text (line 31) and `json.dumps` are not modelled. Its escaping and spacing belong to Python's serialiser, so the inventory is a structured value instead.
- `err` (lines 11-13) is not modelled: it writes to standard error and calls `sys.exit(1)`, which is I/O and process control. The failure path is `Failure`.
- The exception text in the error line (line 33) is not modelled. It comes from Python's exception `str()`.
- `log` (lines 8-9) is not modelled because nothing calls it.
- The docstring's "INI format" and "config files" (lines 4 and 16) are not modelled, because the code emits JSON and reads no file.
- Strings are sequences of Dafny `char`, which are Unicode scalar values. On POSIX, Python decodes undecodable environment bytes with `surrogateescape`, so a value such as the single byte 0xFF becomes a lone surrogate, which no Dafny `string` can hold. Such values are not modelled. The split only compares against `','`, so it treats a surrogate like any other non-comma character; the model covers exactly the values it can represent.
- Idempotence (same environment, same output) gets no lemma of its own: every member is a function, so it holds by construction.
- The only failure `Build` produces is an index out of range. Building the dictionary from strings raises nothing else, and serialisation is outside the model.
