# bigip_exporter startup and configuration input handling

A Dafny model of the pure input handling of the BIG-IP exporter, which
republishes load-balancer statistics as Prometheus metrics. The model
covers what happens to the user's settings before the collector starts:

- the configuration package's log-level parser, and the decision during
  package initialisation to apply the configured level or to keep the
  current one and warn;
- the environment-variable name derived from a flag name (`BE_` prefix,
  '.' replaced by '_', upper-cased), and its agreement with the
  prefix-and-replacer binding configured next to it;
- the entry point's shaping of settings: the comma-separated partition
  setting becomes either no allow-list or the list of its pieces, the
  appliance endpoint and the listener address are built as
  `host + ":" + decimal(port)`, and the authentication method is chosen
  from the basic-auth flag.

Files:

- `wrappers.dfy`: `Option`, which stands for Go's nil-or-slice result.
- `strings.dfy`: `Split`, `ReplaceChar` and `ToUpper` stand for the program's
  calls to `strings.Split`, `strings.ReplaceAll` (and the one-pair
  `strings.NewReplacer`) and `strings.ToUpper`. `Join`, `Count`, `IndexOf`
  and `LastIndexOf` are helpers for stating what a split produces, and
  `ToLower` stands for the lower-casing the environment binding applies to
  a key. The file also holds the split/join round trips.
- `decimal.dfy`: `strconv.Itoa` and a reference reader proved to invert it.
- `config.dfy`: the settings records, `Level`, `ParseLevel`,
  `InitLogLevel`, `EnvVarName`.
- `exporter.dfy`: `ParsePartitions`, `ConcatHostPort` with its inverse
  `ReadHostPortAtLastColon`, `BigipEndpoint`, `ListenAddress`, `ChooseAuthMethod` and
  `PlanStartup`, which gathers them as the entry point does.

Each operation is paired with an independent definition: `ParseLevel` with `LevelName`
(valid exactly when the input is some level's name, and then that level's
name); `Split` with `Join` in both directions; `Itoa` with `ParseInt`;
`ConcatHostPort` with `ReadHostPortAtLastColon`, which reads the address back at its
last colon; `EnvVarName` with the prefix-and-replacer composition.

Where the code and its own help text disagree, the model follows the
code. The help text of the log-level flag (config/config.go:79) advertises
`trace`, `warning` and `critical`, but the parser accepts only `debug`,
`info`, `warn` and `error`, exactly and case-sensitively; the model rejects
the advertised extra names (`Config.ParseLevelRejects`). The collector
receives the raw list of pieces: it can hold duplicates, empty
names and space-padded names, and the model keeps them.

## Model

| member | source | states |
|---|---|---|
| Config.ParseLevel | config/config.go:53-66 | The flag is true exactly when the input is the name of one of the four levels, and then the level is the one with that name. Any other input gives Info with the flag false, so the function is total. |
| Config.ParseLevelName | config/config.go:54-62 | "debug", "info", "warn" and "error" each parse to their own level with the flag true. |
| Config.ParseLevelRejects | config/config.go:63-64 | "trace", "warning", "critical", "DEBUG" and "" all give (Info, false). Matching is exact and case-sensitive. |
| Config.InitLogLevel | config/config.go:45-50 | A warning is logged exactly when the configured name is no level's name. Otherwise the logger gets the named level. On an invalid name the previous level is kept unchanged. |
| Config.EnvVarName | config/config.go:98 | The result is "BE_" followed by the flag name, with each '.' turned into '_' and each other character upper-cased. It is three characters longer than the name and contains no '.'. |
| Config.EnvVarNameIsBoundKey | config/config.go:92-98 | The logged name equals the name that the "be" prefix and the '.'→'_' key replacer produce for the same flag. |
| Config.EnvVarNameExample | config/config.go:98 | "bigip.basic_auth" maps to "BE_BIGIP_BASIC_AUTH". |
| Config.FlagEnvVarNamesDistinct | config/config.go:69-79 | The eleven registered flags map to eleven different variable names. |
| Config.EnvVarNameCollides | config/config.go:98 | The mapping is not injective: "a.b", "a_b" and "A.B" share a variable. |
| Strings.Split | bigip_exporter.go:43 | Splitting yields at least one piece, and no piece contains the separator. |
| Strings.JoinSplit | bigip_exporter.go:43 | Joining the pieces of a split with the separator rebuilds the original string exactly. |
| Strings.SplitCount | bigip_exporter.go:43 | The number of pieces is the number of separators plus one. |
| Strings.SplitJoin | bigip_exporter.go:43 | Splitting the join of a non-empty list of separator-free pieces returns that list. Splitting is therefore the unique inverse of joining. |
| Exporter.ParsePartitions | bigip_exporter.go:41-46 | No allow-list results exactly when the setting is empty. Otherwise the list has one more piece than the setting has commas, no piece contains a comma, and joining the pieces with commas rebuilds the setting. |
| Exporter.ParsePartitionsOfJoin | bigip_exporter.go:43 | Any non-empty list of comma-free names other than [""] is exactly what its comma-joined setting parses to. |
| Exporter.ParsePartitionsNeverBlank | bigip_exporter.go:42-46 | No setting parses to [] or [""], because an empty setting gives no allow-list. With Exporter.ParsePartitionsOfJoin, these are the only comma-free lists no setting yields. |
| Exporter.ParsePartitionsSingle | bigip_exporter.go:42-46 | "" gives no allow-list, and "Common" gives ["Common"]. |
| Exporter.ParsePartitionsKeepsEmpty | bigip_exporter.go:43 | "a,,b" gives ["a","","b"], and "," gives ["",""]. Empty pieces survive. |
| Exporter.ParsePartitionsKeepsSpaces | bigip_exporter.go:43 | " a , b" gives [" a "," b"]. Nothing is trimmed. |
| Decimal.Itoa | bigip_exporter.go:40 | The rendering is never empty. It starts with '-' exactly for negative numbers, and the rest is digits with no leading zero. Zero renders as "0". |
| Decimal.ItoaRoundTrip | bigip_exporter.go:40 | Reading the decimal rendering back gives the number that was rendered. |
| Exporter.ConcatHostPort | bigip_exporter.go:40 | The address is the host unchanged, then a ':', then exactly the decimal rendering of the port (so no padding or leading zero). That ':' is the last one in the address, and the text after it reads back as the port. |
| Exporter.HostPortRoundTrip | bigip_exporter.go:40 | Splitting a joined address at its last colon gives back the host and the port, even when the host itself contains colons. |
| Exporter.BigipEndpoint | bigip_exporter.go:40 | The appliance endpoint is the appliance host joined to the decimal appliance port, and it splits back into that host and port. |
| Exporter.ListenAddress | bigip_exporter.go:30 | The listener address is the bind address joined to the decimal bind port, and it splits back into that address and port. |
| Exporter.AddressExamples | config/config.go:70-75 | The default appliance port gives "localhost:443", and the default bind port gives "localhost:9142". |
| Exporter.ChooseAuthMethod | bigip_exporter.go:47-50 | Basic authentication is chosen exactly when the flag is set. Otherwise token authentication is chosen. |
| Exporter.PlanStartup | bigip_exporter.go:30-57 | The endpoint is the appliance host and port joined with ':' and the port in decimal, and the listener address is built the same way from the bind address and port. Credentials and namespace pass through unchanged. The auth method follows the flag. The allow-list is absent exactly for an empty setting; otherwise its pieces contain no comma and join back to the setting, which makes it the split of the setting. |

## Left out

- Flag registration, binding and parsing, and the reading of settings from the library's global store (config/config.go:35-44, 68-89, 117-135): the settings are taken as a `Config.Settings` value instead. Only the registered flag names are kept, as the constant `Config.FlagNames`.
- Opening and reading the YAML configuration file (config/config.go:104-113): file I/O.
- Logging calls and the logger's numeric level values: the levels are a four-constructor datatype. Whether a warning is logged is a boolean result.
- The HTTP handlers, the server and its header timeout (bigip_exporter.go:17-34), and metric registration (bigip_exporter.go:56): network and UI plumbing. Only the address string is modelled.
- The appliance client constructor and the collector constructor (bigip_exporter.go:52-54): their source is not part of this model. The collector and its partition filter are therefore not modelled. `Exporter.PlanStartup` stops at the values passed to them.
- Go's distinction between a nil slice and an empty slice: `None` stands for nil. A non-empty setting always gives at least one piece.
- Config.EnvVarName: upper-cases only the ASCII letters a-z. `strings.ToUpper` also maps non-ASCII letters and can change the byte length, so the length fact holds only for ASCII names.
- Config.EnvVarNameIsBoundKey: the order in which the library lower-cases the key, adds the prefix, upper-cases and applies the replacer is taken as a given. That library is not part of this model.
- Decimal.Itoa: works on unbounded integers. Go's `int` is 32 or 64 bits wide depending on the platform, which only narrows which ports can occur and does not change the rendering.
- Exporter.ReadHostPortAtLastColon and Decimal.ParseInt: these are reference readers used only to state round trips. They are not Go's `net.SplitHostPort` or `strconv.Atoi`.
