# XStart launcher core, modelled in Dafny

XStart is a small Windows desktop launcher for the Xray proxy engine, written in Python
with Tk (`main.py`). The user copies a `vless://` share link to the clipboard and adds
it as a profile. The launcher turns the link into an Xray configuration document. The
document has one local SOCKS listener, the remote VLESS/REALITY server, `direct` and
`block` outbounds, and six routing rules. The document is stored as
`configs\<safe name>.json`. At start-up the launcher reads every stored file back into
its profile registry. It starts `xray.exe -config <file>` for the selected profile,
streams the engine's output into a log pane, and stops the engine on request.

This project models that core and proves properties of the model:

- `pystr.dfy` (module `PyStr`): the Python `str` operations the code relies on:
  `strip()`, `partition`/`split(c, 1)`, `split(c)`, `join` and `replace`.
- `pyint.dfy` (`PyInt`): Python's `int(text)` in base 10. It skips surrounding white
  space (every `isspace()` character except the separators U+001C to U+001F), allows one
  sign and single underscores between digits, and refuses texts of more than 4300 digits. This is the port conversion of the link parser.
- `percent.dfy` (`Percent`): `urllib.parse.unquote`. It percent-decodes maximal ASCII
  runs and then decodes the bytes as UTF-8 with the `replace` error handler. The file
  also holds a percent-encoder, which states that `unquote` inverts it.
- `query.dfy` (`Query`): `parse_qsl`/`parse_qs` with their defaults, and the `get_param`
  helper ("first value wins, else the default").
- `xray_config.dfy` (`XrayConfig`): the configuration document as a datatype, with these
  operations:
  - the synthesiser;
  - the summary the parser returns;
  - the summary the loader rebuilds from a stored document.
- `vless_link.dfy` (`VlessLink`): `parse_vless_url`. It returns the parsed profile, or
  the reason the link is refused.
- `profile_files.dfy` (`ProfileFiles`): the file-name sanitiser of `save_profile_config`.
  The file also has the path functions the loader relies on: Windows `os.path.join`,
  `basename`, `splitext`, and the `*.json` glob pattern.
- `launcher.dfy` (`Launcher`): the launcher's global state as the fields of one class
  `App`. It has the start-up load of the stored profiles and one method per button: add,
  delete, start and stop. It also models the log reader's loop.

External effects become parameters:

- the clipboard text, or its absence;
- the list selection and the answer to the confirmation dialog;
- whether writing or removing a file succeeds, and whether spawning the engine succeeds;
- the directory listing;
- the lines the engine prints.

The `configs` directory is a field of `App` that maps a path to its document (`None`
for a file that is not valid JSON).

Behaviour of the code that the model keeps:

- In several places the code does something a reader might not expect. The model
  follows the code each time, and the lemmas named below make each point precise.
- The port is whatever `int()` accepts. There is no 1-65535 range check, and negative
  ports are accepted (`VlessLink.PortNotRangeChecked`, `VlessLink.PortIsInt`,
  `PyInt.ParseNegative`).
- Only the query keys `flow`, `type`, `sni`, `pbk`, `sid` and `fp` are read. The
  longer aliases (`publicKey`, `shortId`, `fingerprint`) are ignored.
  `parse_qs` drops a field with an empty value, so `sni=` gives the default
  (`Query.BlankValueDropped`).
- The duplicate check compares the raw profile name, but the file is named after the
  sanitised name. Two profiles can therefore share one file
  (`ProfileFiles.SanitiseCollides`). The model claims no unique-location invariant.
  On Windows, names whose safe names differ only in letter case also share one file;
  the model keeps those apart (see "## Left out").
- A name without allowed characters is written to `configs\.json`, which the loader's
  glob never lists (`ProfileFiles.EmptySafeNameNotListed`).
- The stored document says `"security": "reality"`, while the parser's summary says
  `"REALITY"`. A profile therefore shows a different `security` after a restart
  (`XrayConfig.SummaryRoundTrip`).
- When the engine's output ends, the reader loop stops, but nothing clears
  `xray_process`. The launcher still counts as running until Stop is pressed, so Start
  answers "already running" (`Launcher.App.ReadLog` leaves `process` alone, and
  `Launcher.App.Start` refuses while `process` is set).
- `current_profile_info` is not cleared by `stop_xray` (`Launcher.App.Stop` leaves
  `currentInfo` alone).

## Model

| member | source | states |
|---|---|---|
| PyInt.ParseInt | main.py:76 | definition: `int(port)`, `None` where Python raises; stated by `PyInt.ParseDigits`, `PyInt.ParseNegative`, `PyInt.ParsePadded`, `PyInt.ParseRejects`, `PyInt.ParseBlank`, `PyInt.SeparatorNotSkipped` |
| Percent.UnquoteToBytes | main.py:82 | definition: `unquote_to_bytes` on an ASCII run; stated by `Percent.UnquotePercentBytes`, `Percent.DecodePlainRun` |
| Percent.Decode | main.py:82 | definition: UTF-8 decoding with `replace`; stated by `Percent.DecodeEncode`, `Percent.DecodePlainRun` |
| Percent.Unquote | main.py:82 | definition: `unquote(comment)`; stated by `Percent.UnquoteQuote`, `Percent.UnquotePlain` |
| Query.ParseQsl | main.py:77 | definition: `parse_qsl(query)`; stated by `Query.ParseQslAppend`, `Query.BlankValueDropped`, `Query.PlainField` |
| Query.ParseQs | main.py:77 | definition: `parse_qs(query)`, the grouping of `Query.Group`; stated by `Query.FirstValueWins` |
| Query.GetParam | main.py:79-80 | definition: `get_param(name, default)`; stated by `Query.FirstValueWins`, `Query.RepeatedKey` |
| XrayConfig.Summarise | main.py:154-162 | definition: the parse-time summary; stated by `XrayConfig.SummaryRoundTrip` |
| XrayConfig.Reconstruct | main.py:31-44 | definition: the summary the loader rebuilds, `None` when a lookup fails; stated by `XrayConfig.SummaryRoundTrip`, `XrayConfig.ReconstructDefaults`, `XrayConfig.ReconstructNeedsSettings` |
| VlessLink.ServerPart | main.py:64-65 | definition: `server_part`, the text between the first `@` and the first `#`; stated by `VlessLink.PiecesDisassemble` |
| VlessLink.HostPort | main.py:67-72 | definition: `host_port`, the server part before its first `?`; stated by `VlessLink.Pieces` |
| VlessLink.EndpointOf | main.py:79-121 | definition: the values the document is built from; stated by `VlessLink.EndpointDefaults` |
| VlessLink.NameOf | main.py:82 | definition: the profile name; stated by `VlessLink.LinkRoundTrip` |
| ProfileFiles.KeepAllowed | main.py:166 | definition: the character filter; stated by `ProfileFiles.KeepAllowedSafe`, `ProfileFiles.KeepAllowedKeeps`, `ProfileFiles.KeepAllowedSubsequence` |
| ProfileFiles.Sanitise | main.py:166 | definition: `safe_name`; stated by `ProfileFiles.SanitiseSafe`, `ProfileFiles.SanitiseIdempotent`, `ProfileFiles.SanitiseCollides` |
| ProfileFiles.ConfigPath | main.py:167 | definition: `os.path.join(CONFIGS_DIR, safe_name + ".json")`; stated by `ProfileFiles.BasenameOfConfigPath`, `ProfileFiles.EmptySafeNameNotListed` |
| ProfileFiles.SplitExtRoot | main.py:47 | definition: `os.path.splitext(name)[0]`; stated by `ProfileFiles.SplitExtOfSafeName` |
| ProfileFiles.Stem | main.py:47 | definition: the profile name of a file; stated by `ProfileFiles.SafeNameRoundTrip` |
| ProfileFiles.GlobMatches | main.py:24 | definition: the `*.json` pattern; stated by `ProfileFiles.GlobListsSafeName`, `ProfileFiles.EmptySafeNameNotListed` |
| Launcher.ProfilePath | main.py:166-167 | definition: the file `save_profile_config` writes; stated by `ProfileFiles.SafeNameRoundTrip`, `Launcher.SavedProfileReloads` |
| Launcher.LoadOne | main.py:26-56 | definition: one turn of the loader loop; stated by `Launcher.LoadAllSnoc` |
| Launcher.LoadAll | main.py:25-56 | definition: the loader loop over the files read; stated by `Launcher.LoadAllOverrides`, `Launcher.LoadAllIdempotent`, `Launcher.LoadAllNames`, `Launcher.App.LoadFiles` |
| PyStr.StripLeft | main.py:166 | the result is a suffix of the input that does not start with white space; that it is the longest is `PyStr.StripLeftDropsSpace` |
| PyStr.StripLeftDropsSpace | main.py:166 | every character `lstrip()` drops is white space, so the suffix kept is the longest one not starting with white space |
| PyStr.StripRight | main.py:166 | the result is a prefix of the input that does not end with white space; that it is the longest is `PyStr.StripRightDropsSpace` |
| PyStr.StripRightDropsSpace | main.py:166 | every character `rstrip()` drops is white space, so the prefix kept is the longest one not ending with white space |
| PyStr.Strip | main.py:181 | the stripped text neither starts nor ends with white space and is no longer than the input |
| PyStr.StripTrimmed | main.py:166 | a text without white space at either end is its own `strip()` |
| PyStr.StripIdempotent | main.py:181 | stripping twice is stripping once |
| PyStr.StripInfix | main.py:166 | `strip()` keeps a contiguous part of the input, starting where its leading white space ends |
| PyStr.StripKeepsCharacters | main.py:166 | every character of the stripped text occurs in the input |
| PyStr.StripSubsequence | main.py:166 | stripping a subsequence of a text leaves a subsequence of that text |
| PyStr.Find | main.py:64-65 | `Find` is `None` exactly when the character is absent; otherwise it is the position of the first occurrence |
| PyStr.Partition | main.py:64-65 | when the separator occurs, the text is the part before it, the separator and the rest, and the part before holds no separator; otherwise the result is the whole text and `""` |
| PyStr.PartitionAt | main.py:64-75 | a cut at a first occurrence is the one `partition` makes |
| PyStr.Split | main.py:77 | `split` gives at least one piece, and no piece holds the separator |
| PyStr.JoinSplit | main.py:77 | joining the pieces of `split` with the same separator gives back the text |
| PyStr.SplitAppend | main.py:77 | splitting `a + c + b` at `c` gives the pieces of `a` followed by those of `b` |
| PyStr.Replace | main.py:77 | each character is replaced exactly where it equals the one replaced, and the length is kept |
| PyInt.RemoveUnderscores | main.py:76 | removing underscores never lengthens the text, keeps only digits of a digit-and-underscore text, and leaves a text without underscores unchanged |
| PyInt.DecimalString | main.py:76 | `str(n)` is a non-empty run of digits, without a leading zero, whose value is `n` |
| PyInt.ParseDigits | main.py:76 | `int()` of a run of 1 to 4300 digits is its decimal value |
| PyInt.ParseDecimal | main.py:76 | `int(str(n)) == n` for every natural number of at most 4300 digits |
| PyInt.ParseNegative | main.py:76 | `int("-" + digits)` is the negated value: a negative port text is accepted |
| PyInt.TrimLeft | main.py:76 | the text `int()` reads from is a suffix of the input not starting with white space `int()` skips |
| PyInt.TrimLeftDropsSpace | main.py:76 | every character dropped in front is white space `int()` skips, so that suffix is the longest |
| PyInt.TrimRight | main.py:76 | a prefix of the input not ending with white space `int()` skips |
| PyInt.TrimRightDropsSpace | main.py:76 | every character dropped behind is white space `int()` skips, so that prefix is the longest |
| PyInt.Trim | main.py:76 | the text `int()` reads neither starts nor ends with white space it skips |
| PyInt.ParsePadded | main.py:76 | a white-space character `int()` skips, added at either end, does not change what `int()` returns |
| PyInt.ParseRejects | main.py:76 | a text holding a character other than white space `int()` skips, a sign, a digit or `_` is refused |
| PyInt.SeparatorNotSkipped | main.py:76 | U+001C to U+001F are white space that `strip()` drops, yet a port text holding one at either end is refused |
| PyInt.ParseBlank | main.py:76 | the empty text and one of white space only are refused |
| Percent.DecodeOne | main.py:82 | the first UTF-8 character takes 1 to 4 bytes, and an ASCII byte stands for itself |
| Percent.AsciiRun | main.py:82 | the run found is the longest ASCII prefix |
| Percent.UnquotePlain | main.py:82 | a text without `%` is its own `unquote` |
| Percent.DecodeEncode | main.py:82 | UTF-8 decoding with `replace` inverts UTF-8 encoding |
| Percent.DecodeEncodeChar | main.py:82 | decoding the encoding of one character gives that character and its length back, whatever follows |
| Percent.UnquotePercentBytes | main.py:82 | percent-decoding `%XX` triples gives the bytes back |
| Percent.Quote | main.py:82 | the encoded name is ASCII and holds none of `#`, `&`, `=`, `+` |
| Percent.UnquoteQuote | main.py:82 | `unquote` inverts the percent-encoder: an encoded display name comes back unchanged |
| Query.ParseField | main.py:77 | a field without `=` gives nothing; a field that gives a pair is `name=value` with a non-empty value, cut at its first `=`, both sides form-decoded |
| Query.Group | main.py:77 | `parse_qs` lists a name exactly when some pair has it, with all its values in order |
| Query.FirstValueWins | main.py:79-80 | every list `parse_qs` returns is non-empty, and `get_param` gives the value of the first field naming the key, else the default |
| Query.ParseQslAppend | main.py:77 | the fields of `a&b` are those of `a` followed by those of `b` |
| Query.FirstValueAppend | main.py:79-80 | the first value in `a + b` comes from `a` when `a` has one |
| Query.RepeatedKey | main.py:79-80 | when the key occurs before an `&`, what follows cannot change the value read |
| Query.BlankValueDropped | main.py:77-80 | `name=` with an empty value is dropped, so `get_param` gives the default |
| Query.PlainField | main.py:77-80 | a single plain `name=value` field yields exactly that value |
| XrayConfig.Synthesise | main.py:84-152 | the document's first server is the link's host and port, with one user holding the uuid, encryption `none` and the flow |
| XrayConfig.RulesInOrder | main.py:131-150 | the six rules go to direct, direct, block, block, block and the remote server, bypass before block before default, and only the last names the SOCKS inbound |
| XrayConfig.SynthesisedShape | main.py:84-152 | every synthesised document has one unauthenticated SOCKS listener on 127.0.0.1:10808, the outbounds `vless-reality`, `direct`, `block` in order, six rules in precedence order, and every rule names only defined outbounds and inbounds |
| XrayConfig.RuleTagsKnown | main.py:131-150 | every rule goes to one of the three outbounds and names only the SOCKS inbound |
| XrayConfig.OutboundTags | main.py:95-128 | the tag list has one entry per outbound, in order |
| XrayConfig.InboundTags | main.py:86-94 | the tag list has one entry per inbound, in order |
| XrayConfig.RuleTargets | main.py:131-150 | the target list has one entry per rule, in order |
| XrayConfig.SummaryRoundTrip | main.py:31-44 | the summary rebuilt from a synthesised document is the parse-time summary, except `security` reads `reality` where the parser says `REALITY` |
| XrayConfig.ReconstructDefaults | main.py:42-43 | a stored document without `realitySettings` reads back with `sni` empty and `fingerprint` `chrome` |
| XrayConfig.ReconstructNeedsSettings | main.py:32 | a document whose first outbound has no `settings` is skipped |
| VlessLink.Pieces | main.py:63-75 | the cuts fail exactly when the host-and-port part has no `:`, and otherwise leave pieces without the separators an earlier cut would find |
| VlessLink.PiecesDisassemble | main.py:63-75 | every text the cuts accept is the assembly of its pieces, with `?` and `#` written exactly when they occur: the converse of `VlessLink.PiecesAssemble` |
| VlessLink.ParseVlessUrl | main.py:59-162 | an accepted link starts with `vless://`, and its summary says protocol `VLESS` and security `REALITY` |
| VlessLink.ParsedDocument | main.py:59-162 | the document of every accepted link has the fixed shape and consistent routing, and the loader reads the parse-time summary back from it |
| VlessLink.EndpointDefaults | main.py:102-121 | uuid, host and port come from the link, and each setting is the first query value of its key, or `""` (flow, sni, pbk, sid), `tcp` (type) or `chrome` (fp) |
| VlessLink.PiecesAssemble | main.py:63-75 | the parser recovers the pieces a link was written from, when no piece holds a separator an earlier cut finds first |
| VlessLink.CutAt | main.py:64-68 | cutting at an optional trailing separator gives back the text before it and the tail |
| VlessLink.ParseAssembled | main.py:59-162 | such a link with a port `int()` accepts parses to the name, document and summary of its pieces |
| VlessLink.LinkRoundTrip | main.py:64-106 | writing a link from uuid, host, port, query and percent-encoded name and parsing it gives back the name (or `Без имени` when empty), host, port and uuid |
| VlessLink.RejectsOtherSchemes | main.py:60-61 | a link not starting with `vless://` is refused as not a VLESS link |
| VlessLink.MissingAtMeansMissingPort | main.py:65-74 | without `@` the server part is empty, so the link is refused for a missing port |
| VlessLink.MissingColonMeansMissingPort | main.py:73-74 | a link whose host-and-port part has no `:` is refused for a missing port |
| VlessLink.ColonInQueryIsNoPort | main.py:67-74 | a `:` in the query does not count: `vless://uuid@host?query` with no `:` in the host is refused for a missing port |
| VlessLink.BadPortReported | main.py:76 | a port text `int()` refuses is reported with that text |
| VlessLink.PortNotRangeChecked | main.py:76 | any natural number, 70000 included, is taken as the port |
| VlessLink.PortIsInt | main.py:76 | with the other pieces fixed, a link parses exactly when `int()` accepts the port text, and the port is that integer |
| ProfileFiles.KeepAllowedSafe | main.py:166 | the filter keeps only letters, digits and ` _-()[]` |
| ProfileFiles.KeepAllowedKeeps | main.py:166 | the filter changes nothing in a text of allowed characters |
| ProfileFiles.KeepAllowedAppend | main.py:166 | the filter commutes with concatenation |
| ProfileFiles.KeepAllowedChar | main.py:166 | one character is kept exactly when it is allowed |
| ProfileFiles.KeepAllowedSubsequence | main.py:166 | the filtered text is the input with characters taken out, in order |
| ProfileFiles.SanitiseSafe | main.py:166 | a safe name holds only allowed characters, has no space at either end, and is a subsequence of the name |
| ProfileFiles.SanitiseIdempotent | main.py:166 | sanitising a safe name gives it back |
| ProfileFiles.SanitiseKeepsSafeNames | main.py:166 | a name of allowed characters without white space at either end is its own safe name |
| ProfileFiles.SanitiseCollides | main.py:166-167 | a safe name followed by any dropped character sanitises to that safe name, so different names share one file |
| ProfileFiles.SanitiseCanBeEmpty | main.py:166 | a name without allowed non-space characters sanitises to the empty name |
| ProfileFiles.Basename | main.py:47 | the base name is the longest suffix without a separator |
| ProfileFiles.FindLast | main.py:47 | `FindLast` is `None` exactly when the character is absent; otherwise it is the position of the last occurrence |
| ProfileFiles.SafeNameRoundTrip | main.py:24-47 | the file of a non-empty safe name is listed by the loader's glob, and the loader names the profile after the safe name |
| ProfileFiles.FileOfSafeName | main.py:24-47 | the file of a non-empty name without dots or separators is listed and named after that name |
| ProfileFiles.BasenameOfConfigPath | main.py:167 | the base name of a profile's path is the safe name plus `.json` |
| ProfileFiles.GlobListsSafeName | main.py:24 | `*.json` matches a safe name plus `.json` |
| ProfileFiles.SplitExtOfSafeName | main.py:47 | `splitext` strips exactly the `.json` of such a file |
| ProfileFiles.EmptySafeNameNotListed | main.py:166-167 | an empty safe name gives `configs\.json`, which the glob does not list |
| Launcher.Loaded | main.py:26-56 | a stored file yields a profile exactly when its document is valid JSON and every lookup succeeds; the profile is named after the file's stem and points at that file |
| Launcher.Glob | main.py:24 | a path is listed exactly when it is in the directory listing and its base name matches `*.json` |
| Launcher.Documents | main.py:25-28 | each listed path is paired with its document, in order |
| Launcher.LoadAllSnoc | main.py:25-56 | loading one more file is one more turn of the loop |
| Launcher.LoadAllAppend | main.py:25-56 | loading `a + b` is loading `a`, then `b` |
| Launcher.LoadAllOverrides | main.py:25-56 | loading over a registry overrides it with what loading alone finds |
| Launcher.LoadAllIdempotent | main.py:22-56 | loading the same files twice gives what loading them once gives |
| Launcher.LoadAllNames | main.py:25-56 | a name is registered after loading exactly when it was before or some file loads under it |
| Launcher.SkippedFileIgnored | main.py:54-56 | a file the loader skips has no effect on the others |
| Launcher.SavedProfileReloads | main.py:165-170 | the file written for a parsed link is listed and reads back as a profile named by its safe name, with the parse-time summary except for the case of `security` |
| Launcher.UntilEof | main.py:312-320 | the lines shown are the prefix of the output before its first empty line |
| Launcher.UntilEofPrefix | main.py:312-320 | a prefix without empty lines that ends at an empty line or the end is what the reader shows |
| Launcher.App.constructor | main.py:10-15 | the launcher starts with no profiles, no process, the stop flag down and an empty log |
| Launcher.DirectoryLoaded | main.py:22-56 | with the listing holding exactly the stored files, a name is registered after loading exactly when it was before or some stored `*.json` file reconstructs under that stem |
| Launcher.App.LoadExisting | main.py:22-56 | the registry becomes the old one updated with every `*.json` file of the directory in listing order, each read or skipped; every stored file that reconstructs is registered under its stem, and no other name is added |
| Launcher.App.LoadFiles | main.py:25-56 | the loop registers the files read, in order |
| Launcher.App.AddFromClipboard | main.py:179-199 | without clipboard text nothing changes; otherwise the stripped text is added as a link |
| Launcher.App.AddLink | main.py:186-199 | a refused link changes nothing and reports the parse error; an accepted one is registered, its document going to the file of its safe name |
| Launcher.App.Register | main.py:192-197 | a registered name changes nothing; a failed write registers nothing; otherwise exactly the document at the given file and the profile of the raw name are added |
| Launcher.App.DeleteSelected | main.py:202-218 | with no selection or no confirmation nothing changes; otherwise the profile is removed even when its file cannot be removed, and the file is removed when it exists and removal succeeds |
| Launcher.App.Start | main.py:267-308 | while running, without a selection, with a missing file or a failed spawn nothing changes; a successful start spawns `xray.exe -config <file>`, records the process, shows the profile, clears the log and lowers the stop flag |
| Launcher.App.ReaderStep | main.py:312-320 | a turn goes on exactly when the flag is down, a process is recorded and the line is not empty, and then appends the line |
| Launcher.App.ReadLog | main.py:310-320 | the reader appends the output's lines in order up to the first empty one, or nothing when the stop flag is up or no process is recorded |
| Launcher.App.Stop | main.py:326-341 | stopping a running engine raises the stop flag and clears the process; stopping while stopped changes nothing |

## Left out

- The Tk user interface is presentational and is not modelled: the widgets, the message
  boxes, `update_profile_list`, `update_proxy_info`, `update_ui_state` and the listbox
  order (main.py:173-176, 221-264, 344-405). The selection is a parameter naming a
  registered profile.
- `update_ui_state` (main.py:252-264) is also a guard. It disables the add and delete
  buttons while the engine runs. The model does not record that guard:
  `Launcher.App.AddFromClipboard` and `Launcher.App.DeleteSelected` may be called in
  any state.
- Clipboard access (main.py:180-184) is external I/O. It is an `Option<string>`
  parameter.
- File and JSON I/O is opaque. This covers `open`, `json.load`, `json.dump`,
  `os.remove`, `os.path.exists` and `os.makedirs` (main.py:17-19, 27-28, 167-169,
  212-214). The `configs` directory is a map from path to document. A write or removal
  succeeds or fails by a boolean parameter. The JSON text and its encoding are not
  modelled.
- `Launcher.App.Register`: a write that fails part-way may leave a truncated file. The
  model leaves the directory unchanged instead.
- `glob` order is the directory listing order, which is a parameter. Drive letters and
  absolute paths in `os.path.join` are not modelled: the directory is always `configs`.
- `subprocess.Popen`, `terminate` and `wait` (main.py:287-299, 330-331) are foreign calls.
  They are a spawn-succeeds flag and a recorded `Process` value.
- The reader thread (main.py:322-323) runs concurrently with the controller. Concurrency
  is not modelled.
- `Launcher.App.ReadLog`: it models the loop running without interference, on a given
  sequence of lines. A stop or start during the loop is not modelled. Each turn is
  `Launcher.App.ReaderStep`, which is stated for any state.
- `print` of a load error (main.py:55) is console output and is not modelled.
- `ProfileFiles.IsAlnum` approximates `str.isalnum()`:
  - It covers ASCII, the Latin-1 letters and numerals, Latin Extended-A and -B, and the
    Cyrillic letters.
  - Letters and digits of other scripts, which Python keeps, are treated as dropped.
  - The full Unicode database is out of reach.
  - For a name in such a script (Greek, CJK and others), `ProfileFiles.SanitiseCanBeEmpty`
    and `ProfileFiles.EmptySafeNameNotListed` describe the model, not the program.
- `PyInt.ParseInt`: `int()` also accepts non-ASCII decimal digits such as Arabic-Indic.
  Those are treated as invalid. The 4300-digit limit is CPython's default.
- `Query.ParseQs` uses the current `parse_qs` defaults: `&` is the only separator,
  blank values are dropped, there is no field limit, and `strict_parsing` is off.
- Python strings may hold lone surrogates (U+D800 to U+DFFF). A Dafny `char` is a
  Unicode scalar value, so texts holding them are not modelled.
- `Launcher.App.Register`, `Launcher.App.DeleteSelected`, `Launcher.App.Start`, `Launcher.Documents`:
  the directory maps paths exactly, so `configs\a.json` and `configs\A.json` are two
  files. On Windows they are one file: adding `A` after `a` overwrites a.json, and
  deleting `A` then leaves `a` without its file. Case-folding paths is not modelled.
- `PyInt.DecimalString` is `str(n)`, which the source does not call. It lets the round
  trip `int(str(n)) == n` be stated.
- `Percent.Quote` is not part of the source. It is a percent-encoder that lets the round
  trip of a display name be stated.
