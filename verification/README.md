# salt-plugin, modelled in Dafny

This project models the Rundeck plugin scripts that drive a SaltStack master
through the Salt API. It covers four scripts:

- **Resource model source** (`contents/salt_resource_model_source.py`). It asks
  the minions for their grains and turns the answer into one Rundeck node per
  minion. The node's OS family and architecture are normalised, its tags are
  taken from grains, and its attributes are renamed away from Rundeck's
  reserved fields.
- **File copier** (`contents/salt_file_copier.py`). It reads a local file in
  fixed-size windows, compresses each window on its own, and sends the chunks
  one `cp.recv_chunked` call at a time. It stops at the first chunk the minion
  refuses.
- **Configuration helpers** (`contents/common.py`). These are `str_to_bool`,
  `parse_data` over the environment Rundeck exports, `shstr` and
  `sanitize_dict`.
- **Node executor** (`contents/salt_node_executor.py`). It builds a `cmd.run`
  request from the command, the `runas` user and two argument lists, then reads
  the minion's output and return code out of the response.

Modules:

- `Results`: Option and Result.
- `PyValue`: JSON values with Python's truthiness and `sys.exit` statuses.
- `PyStr`: `strip`, `lower`, `split` and `int()` on strings.
- `Common`: the helpers above.
- `SaltApi`: the Pepper client as a class whose replies are a parameter.
- `Compressor`: `compress_file` as a `Source` class (a file with a cursor that
  is opened lazily) and a `ChunkStream` class (the generator).
- `FileCopier`, `NodeExecutor` and `ResourceModel`: the three scripts' `main`s.

The imperative parts are methods proved against specification functions:

- the loops of `parse_data`, `sanitize_dict`, `process_tags`,
  `process_attributes` and `generate_resource_model`;
- the generator and the per-chunk send loop;
- the argument list of the node executor.

The properties are then proved about those functions. Examples:

- the chunk count is `L div n + 1`;
- decompressing and joining the chunks gives back the file;
- the transfer stops at the first refused chunk;
- attributes never overwrite a fixed field;
- normalisation is idempotent;
- node names never collide;
- the model does not depend on the order in which the response lists the
  minions.

Behaviour of the code that a reader might not expect, which the model keeps:

- A minion reply without a `ret` dictionary, without the grains the entry
  needs, or with an unhashable `os_family` (a list or a dictionary, which
  `os_family_map.get` rejects), makes the script raise, so that one reply fails the whole run.
  `ResourceModel.Entry` gives `None` there, and the run exits with status 1.
- An entry holds `nodename`, `osArch`, `osName`, `osVersion`, `osFamily`,
  `tags` and the attributes, and nothing else.
- Tags are a list. List grains are spliced in and any other truthy value is
  added whole, as it is.
- A missing, falsy or non-scalar attribute produces no key.
- A file whose length is a multiple of the chunk size ends with an empty
  chunk. For example, 3 MiB in 1 MiB chunks gives 4 chunks.
- `compress_file` raises `ValueError` for a non-integral float chunk size
  outside its `try/finally`. That happens before the path is opened, so
  nothing needs closing.
- A path source is opened on the first read and closed on every other exit
  path. A generator abandoned after a refused chunk closes it when it is
  finalised (`ChunkStream.Close`).
- `file_mode` always gives `None`, because `int(oct(mode))` rejects the `0o`
  prefix. Every request therefore carries `None` as the mode.

## Model

| member | source | states |
|---|---|---|
| PyValue.ExitStatus | contents/salt_node_executor.py:98 | `sys.exit(v)` gives a status in 0..255: an integer keeps its low byte (`sys.exit(256)` succeeds, `sys.exit(-1)` gives 255), `None` is 0, and any other non-boolean value is 1 |
| PyValue.NonZeroExit | contents/salt_file_copier.py:188-198 | a return code that differs from 0 still exits with success exactly when it is `None` or an integer whose low byte is 0, such as 256 |
| PyValue.Truthy | contents/salt_resource_model_source.py:133-146 | definition of Python's `bool(v)` on JSON values; the tag and attribute filters use it, see `TagsOfMember` and `AttributesOf` |
| PyStr.StripLeft | contents/common.py:23 | `lstrip` leaves a suffix of the input that does not start with white space |
| PyStr.StripRight | contents/common.py:23 | `rstrip` leaves a prefix of the input that does not end with white space |
| PyStr.StripLeftDropsSpace | contents/common.py:23 | everything `lstrip` removes is white space |
| PyStr.StripRightDropsSpace | contents/common.py:23 | everything `rstrip` removes is white space |
| PyStr.Strip | contents/common.py:23 | `strip` is no longer than its input and neither starts nor ends with white space |
| PyStr.StripLeftSkips | contents/common.py:23 | leading white space does not change what `lstrip` leaves |
| PyStr.StripRightSkips | contents/common.py:23 | trailing white space does not change what `rstrip` leaves |
| PyStr.StripPadded | contents/common.py:23 | `strip` undoes any white-space padding around a trimmed string |
| PyStr.StripTrailing | contents/common.py:23 | `strip` undoes white-space padding after a trimmed string |
| PyStr.StripTrimmed | contents/common.py:23 | a trimmed string strips to itself |
| PyStr.Lower | contents/common.py:23 | `lower` keeps the length and lower-cases each ASCII capital in place |
| PyStr.Split | contents/salt_resource_model_source.py:41 | `split(',')` gives at least one piece, and no piece holds a comma |
| PyStr.JoinSplit | contents/salt_resource_model_source.py:41 | joining the pieces of a split with the separator gives back the string |
| PyStr.SplitPrefix | contents/salt_resource_model_source.py:41 | a separator-free prefix only extends the first piece of the split |
| PyStr.SplitJoin | contents/salt_resource_model_source.py:41 | splitting a join of separator-free pieces gives back the pieces |
| PyStr.DigitsOnlyNoDoubleUnderscore | contents/common.py:73 | helper for `NatStringDigits`: a string of digits has no doubled underscore |
| PyStr.NatString | contents/common.py:73 | `str(n)` for a natural number is a non-empty string of digits |
| PyStr.NatStringValue | contents/common.py:73 | the digits of `str(n)` spell `n` |
| PyStr.NatStringDigits | contents/common.py:73 | `int()` reads the unsigned digits of `str(n)` as `n` |
| PyStr.NatStringStripped | contents/common.py:73 | `str(n)` strips to itself |
| PyStr.ParseInt | contents/common.py:73 | definition of `int()` on a string (`None` where Python raises `ValueError`); properties in `ParseIntOfDecimal` and `Common.ParsedOk` |
| PyStr.NegativeStringTrimmed | contents/common.py:73 | `"-" + str(n)` strips to itself |
| PyStr.ParseIntStripped | contents/common.py:73 | `int()` of a string that strips to itself reads the string as it stands |
| PyStr.ParseSignedDigit | contents/common.py:73 | text that starts with a digit is read with no sign |
| PyStr.ParseSignedMinus | contents/common.py:73 | a leading `-` negates the value of the digits after it |
| PyStr.ParseIntOfNat | contents/common.py:73 | `int(str(n)) == n` for a natural number |
| PyStr.ParseIntOfNegative | contents/common.py:73 | `int("-" + str(n)) == -n` |
| PyStr.ParseIntOfDecimal | contents/common.py:73 | `int(str(n)) == n` for every integer: the round trip of an `int` setting |
| Common.TokenTablesDisjoint | contents/common.py:25-29 | no token is both true and false |
| Common.BoolToken | contents/common.py:25-31 | a token gives `True` exactly when it is in the true table, `False` exactly when it is in the false table, and otherwise `None` |
| Common.StrToBool | contents/common.py:20-31 | `None` gives `None`; otherwise the stripped, lower-cased string gives `True` exactly for a true token and `False` exactly for a false token |
| Common.TokensTrimmed | contents/common.py:25-29 | every token is non-empty, with no white space at either end |
| Common.LowerNonSpace | contents/common.py:23 | helper for `StrToBoolAccepts`: a character that lower-cases to a non-space was not a space |
| Common.StrToBoolAccepts | contents/common.py:23-31 | any white-space padding and any capitalisation of a token (`'True'`, `' yes\n'`, `'OFF'`) parse as that token |
| Common.ShStr | contents/common.py:90-99 | `shstr` gives `[]` when the tokenizer raises, and the tokens otherwise |
| Common.Convert | contents/common.py:66-77 | an unset variable gives `None`; a `str` item keeps its text unchanged; a `bool` item is `str_to_bool` of the text (`None` when it is no token); an `int` item is `int()` of the text, and conversion fails exactly when `int()` rejects it; a `shstr` item is `shstr` of the text |
| Common.ParseData | contents/common.py:53-78 | the loop returns the specification `Parsed` |
| Common.ParseIntoKeys | contents/common.py:64-78 | the parsed keys are the accumulated keys plus the items' keys |
| Common.ParsedKeys | contents/common.py:64-78 | `parse_data` returns exactly one key per item key |
| Common.ParseIntoOk | contents/common.py:65-77 | the parse succeeds exactly when every item converts |
| Common.ParsedOk | contents/common.py:72-73 | `parse_data` fails exactly when some `int` variable is set to text that `int()` rejects |
| Common.ParseIntoKeep | contents/common.py:74-77 | a key no later item writes keeps its value |
| Common.ParseIntoValues | contents/common.py:65-77 | each key stores the converted value of the last item with that key |
| Common.ParsedValues | contents/common.py:65-77 | each key holds the converted value of its last item, and `None` when that item's variable is unset |
| Common.ParsedHasKeys | contents/common.py:74-77 | every item's key is present in the result |
| Common.ParsedShapedAt | contents/common.py:66-77 | the value under an item's key is that item's converted value, of its type's shape |
| Common.SanitizeDict | contents/common.py:102-111 | the copy has the same keys; sensitive keys that are present hold `********`; every other key keeps its value; absent sensitive keys are not added |
| Common.FirstFalsy | contents/salt_file_copier.py:122-127 | no key is reported exactly when every required setting is truthy; a reported key is the first falsy one |
| Common.FirstMissing | contents/salt_node_executor.py:45-49 | the `for key in [...]: if not data[key]` loop stops at the key `FirstFalsy` names |
| SaltApi.SettingValue | contents/salt_node_executor.py:73-75 | a setting is sent as a JSON value with the same truthiness |
| SaltApi.MinionsOf | contents/salt_resource_model_source.py:106 | `response.get('return', [{}])[0]`: the first element of a non-empty `return` list; `{}` when `return` is absent; `None` for a response that is not a dictionary or whose `return` is an empty list, where line 106 raises, and for a `return` that is not a list: that either raises at line 106 or, as a non-empty string does, is indexed to its first character, on which every caller then raises (salt_node_executor.py:90, salt_file_copier.py:185, salt_resource_model_source.py:162) |
| SaltApi.Get | contents/salt_node_executor.py:90-92 | `d.get(key, default)`: the entry when present, the default otherwise, and a raise when `d` is not a dictionary |
| SaltApi.MinionField | contents/salt_node_executor.py:90-92 | a response that names no minion leaves the field at its default |
| SaltApi.MissingHostDefaults | contents/salt_node_executor.py:90-92 | a host missing from the replies gives the field's default |
| SaltApi.PresentField | contents/salt_node_executor.py:90-92 | a field present in the host's reply gives its value |
| SaltApi.Client.constructor | contents/salt_node_executor.py:73 | a new client has no login and has sent nothing |
| SaltApi.Client.Login | contents/salt_node_executor.py:74-78 | the login returns the API's error, if any, and records the credentials; nothing is sent |
| SaltApi.Client.Low | contents/salt_node_executor.py:82-86 | a `low` call appends its request and returns the API's answer to the requests sent so far |
| Compressor.Compress | contents/salt_file_copier.py:55-58 | every chunk opens with the gzip magic bytes |
| Compressor.DecompressCompress | contents/salt_file_copier.py:32-36 | each chunk decompresses on its own to its window |
| Compressor.Take | contents/salt_file_copier.py:58 | `read(n)` is a prefix of what is left: all of it for a negative `n` or a short rest, and exactly `n` bytes otherwise |
| Compressor.WindowsStep | contents/salt_file_copier.py:54-63 | the first window is one read; the windows after it are those of the rest, unless that read came back short |
| Compressor.WindowRead | contents/salt_file_copier.py:54-63 | reading one window moves it from the pending windows to those read |
| Compressor.FlattenAppend | contents/salt_file_copier.py:54-63 | joining one more window appends its bytes |
| Compressor.Windows | contents/salt_file_copier.py:54-63 | definition of the windows the read loop produces; properties in `WindowCount`, `FullWindows`, `LastWindow` and `WindowsCover` |
| Compressor.WindowCount | contents/salt_file_copier.py:54-63 | a chunk size `n > 0` gives `L div n + 1` windows for `L` bytes |
| Compressor.FullWindows | contents/salt_file_copier.py:54-63 | every window but the last holds exactly `n` bytes |
| Compressor.LastWindow | contents/salt_file_copier.py:54-63 | the last window holds `L mod n` bytes, so an exact multiple ends in an empty window |
| Compressor.WindowsCover | contents/salt_file_copier.py:54-63 | the windows, joined, are the file |
| Compressor.CompressEach | contents/salt_file_copier.py:56-63 | one chunk per window |
| Compressor.CompressEachAppend | contents/salt_file_copier.py:56-63 | one more window adds its chunk at the end |
| Compressor.ReassembleEach | contents/salt_file_copier.py:32-36 | decompressing every chunk and joining the results gives the joined windows |
| Compressor.ChunksRoundTrip | contents/salt_file_copier.py:32-36 | decompressing each chunk and concatenating gives back the file, for every nonzero chunk size |
| Compressor.Source.constructor | contents/salt_file_copier.py:38-39 | a path source starts unopened, at position 0 |
| Compressor.Source.Open | contents/salt_file_copier.py:59-61 | `open(path, "rb")` leaves the file open at position 0 |
| Compressor.Source.Read | contents/salt_file_copier.py:58 | `read(n)` returns `Take` of what is left and advances past it |
| Compressor.Source.Close | contents/salt_file_copier.py:64-68 | the `finally` closes an opened file and leaves a never-opened path alone |
| Compressor.ChunkStream.constructor | contents/salt_file_copier.py:25 | a new generator has not started and has read nothing |
| Compressor.ChunkStream.ReadWindow | contents/salt_file_copier.py:54-63 | one pass of the loop yields the next pending window compressed and moves it to those read |
| Compressor.ChunkStream.Next | contents/salt_file_copier.py:47-68 | a non-integer chunk size raises on the first `next()`, before any read; otherwise the pending windows are yielded in order, then `StopIteration` with the file closed; each step uses up budget |
| Compressor.ChunkStream.Close | contents/salt_file_copier.py:64-68 | finalising a suspended generator runs `finally` and closes the file |
| Compressor.CompressFile | contents/salt_file_copier.py:25-68 | consuming the generator gives one chunk per window of the file, or the exception; the file ends closed either way |
| FileCopier.RequiredPresent | contents/salt_file_copier.py:122 | helper for `ParsedLayout`: every required key is among the parsed keys |
| FileCopier.CopierItemsLayout | contents/salt_file_copier.py:95-106 | the copier's items have the keys and types listed |
| FileCopier.CopierKeysLast | contents/salt_file_copier.py:95-106 | no later item reuses the key of `host`, `src`, `dest` or `chunk-size` |
| FileCopier.ParsedLayout | contents/salt_file_copier.py:95-107 | a successful parse of such items gives settings of the shape `main` reads |
| FileCopier.ParsedCopierData | contents/salt_file_copier.py:95-107 | whatever the environment, a successful `parse_data` gives those settings |
| FileCopier.ChunkSizeOf | contents/salt_file_copier.py:145-146 | `None` or `""` becomes 1048576; an integer is kept, and any other string is passed on as a string |
| FileCopier.RequiredAreText | contents/salt_file_copier.py:122-130 | once every required setting is truthy, the host and both paths are strings |
| FileCopier.Verdict | contents/salt_file_copier.py:177-188 | no stop exactly when the minion's `retcode` (1 for a missing host) equals 0; a refusal always carries a nonzero code |
| FileCopier.Deliver | contents/salt_file_copier.py:158-198 | a transfer stops at the number of one of its chunks, and a refusal carries a nonzero code |
| FileCopier.DeliverSends | contents/salt_file_copier.py:158-178 | the chunks are sent in order, numbered from the start index, and none after the one the transfer stopped at |
| FileCopier.DeliverAcknowledged | contents/salt_file_copier.py:185-200 | every reply but the last acknowledged its chunk, and the transfer completes exactly when every reply did |
| FileCopier.DeliverStep | contents/salt_file_copier.py:158-198 | one turn of the loop: an acknowledged chunk hands over to the next, and any other answer ends the transfer there |
| FileCopier.ChunkRequest | contents/salt_file_copier.py:159-172 | definition of one `cp.recv_chunked` request; properties in `RequestsCarry` and `CopyDelivers` |
| FileCopier.PublishFailed | contents/salt_file_copier.py:190-196 | definition of the publish-failure message; properties in `PartialNoteIff` |
| FileCopier.PartialNoteIff | contents/salt_file_copier.py:190-197 | the failure message says "File partially transferred" exactly when the refused chunk's index is greater than 1 |
| FileCopier.AdviceOpens | contents/salt_file_copier.py:191-195 | helper for `PartialNoteIff`: the advice after the note opens with " I", whatever the chunk size |
| FileCopier.NoteMarks | contents/salt_file_copier.py:191-195 | helper for `PartialNoteIff`: a note that differs from the tail in its second character marks exactly the messages that carry it |
| FileCopier.Conclude | contents/salt_file_copier.py:177-200 | a run that sent chunks keeps the requests and the login, and exits with 0 exactly when every chunk was acknowledged, or a chunk was refused with a code `sys.exit` reports as success (`None`, or an integer that is a multiple of 256) |
| FileCopier.SessionRun | contents/salt_file_copier.py:149-200 | after the readability check, the first line printed stays first, and requests go out only after a successful login with an integer chunk size |
| FileCopier.CopySpec | contents/salt_file_copier.py:117-200 | the destination (or `""`) is printed first; a falsy required setting exits with 1 before any login or request, with the message twice on standard error; requests go out only when every check passes |
| FileCopier.ReadyRun | contents/salt_file_copier.py:141-200 | a run that passes every check ends as its chunk loop does |
| FileCopier.CopyStatusZero | contents/salt_file_copier.py:188-200 | the exit status is 0 exactly when every check passes and either every chunk was acknowledged, or a chunk was refused with a code `sys.exit` reports as success (`None`, or an integer that is a multiple of 256) |
| FileCopier.RequestsCarry | contents/salt_file_copier.py:158-172 | requests numbered from 1 carry their chunks in order, and `append` is false for the first only |
| FileCopier.CopyDelivers | contents/salt_file_copier.py:158-200 | a complete transfer sends one request per window; only the first overwrites the destination; decompressing and joining the payloads gives back the source file |
| FileCopier.DeliverStopped | contents/salt_file_copier.py:185-198 | a stopped transfer sent as many requests as the stopping chunk's number, and only the last went unacknowledged |
| FileCopier.CopyStopsAtRefusal | contents/salt_file_copier.py:185-198 | at a refused chunk nothing later is sent; the exit status is what `sys.exit` makes of the minion's code; the logged message is the publish failure for that index |
| FileCopier.SendChunk | contents/salt_file_copier.py:163-188 | one chunk's request is appended to those sent, and the verdict is read from the API's answer to it |
| FileCopier.SendChunks | contents/salt_file_copier.py:158-198 | the send loop's transfer is `Deliver` of the compressed windows; the client has sent exactly its requests; the file ends closed |
| FileCopier.SendFile | contents/salt_file_copier.py:158-200 | a logged-in run concludes from its transfer, or fails at the generator's first step for a non-integer size; the source is new and ends closed |
| FileCopier.Session | contents/salt_file_copier.py:149-200 | log in with a fresh client, then stream the source; the run is `SessionRun`, and an opened source ends closed |
| FileCopier.CopyFile | contents/salt_file_copier.py:117-200 | the run of `main` is `CopySpec` |
| NodeExecutor.NodeItemsLayout | contents/salt_node_executor.py:20-32 | the executor's items have the keys and types listed |
| NodeExecutor.NodeKeysLast | contents/salt_node_executor.py:20-32 | no later item reuses the key of the first five |
| NodeExecutor.ParsedLayout | contents/salt_node_executor.py:20-34 | a successful parse of such items gives settings of the shape `main` reads |
| NodeExecutor.ParsedNodeData | contents/salt_node_executor.py:20-34 | whatever the environment, a successful `parse_data` gives those settings |
| NodeExecutor.ArgsFor | contents/salt_node_executor.py:52-61 | definition of the argument list the settings call for; properties in `ArgsForUnique` and `BuildArgs` |
| NodeExecutor.ArgsForUnique | contents/salt_node_executor.py:52-61 | the settings fix the argument list completely |
| NodeExecutor.BuildArgs | contents/salt_node_executor.py:52-61 | `args` is the command, then `runas=<user>` exactly when `runas` is neither `None` nor empty, then the configured arguments, then the node's, and nothing else |
| NodeExecutor.CommandRequest | contents/salt_node_executor.py:64-70 | definition of the `cmd.run` request; `ExecuteCommand` states that it is what is sent |
| NodeExecutor.ExecuteCommand | contents/salt_node_executor.py:45-98 | a falsy required setting exits with 1 before login or payload; a failed login or `low` call prints the exception and exits with 1; otherwise exactly one `cmd.run` request is sent, carrying `BuildArgs`' list; the minion's `ret` is printed and the exit status is what `sys.exit` makes of its `retcode` |
| NodeExecutor.MissingHostReply | contents/salt_node_executor.py:90-98 | a host missing from the response prints "No response received" and exits with 1 |
| ResourceModel.SourceKeysLast | contents/salt_resource_model_source.py:190-203 | no later item reuses the key of the first six |
| ResourceModel.ParsedSourceData | contents/salt_resource_model_source.py:190-205 | a successful `parse_data` gives settings of the shape `main` reads |
| ResourceModel.ParsedPrefix | contents/salt_resource_model_source.py:194 | the prefix is the text of its variable, and `None` when that variable is unset |
| ResourceModel.PrefixIgnoredAsWritten | contents/salt_resource_model_source.py:194 | as written, setting `RD_CONFIG_PREFIX` leaves the prefix `None` |
| ResourceModel.PrefixReadCorrected | contents/salt_resource_model_source.py:194 | with `RD_CONFIG_PREFIX`, the prefix is the text Rundeck exports |
| ResourceModel.ValidateRequiredInputs | contents/salt_resource_model_source.py:22-35 | stops at the first falsy of `url`, `eauth`, `user`, `password`; otherwise `tgt` becomes `*` only when it was `None`, and no other key changes |
| ResourceModel.TagGrains | contents/salt_resource_model_source.py:38-43 | definition of `tag_grains`; properties in `RequestedNames` and `RequestedNamesJoin` |
| ResourceModel.AttributeGrains | contents/salt_resource_model_source.py:46-50 | definition of `attributes_grains`; properties in `RequestedNames` and `RequestedNamesJoin` |
| ResourceModel.DefaultedTarget | contents/salt_resource_model_source.py:33-34 | definition of the `tgt` default `*`; `ValidateRequiredInputs` states where it applies |
| ResourceModel.RequestedNames | contents/salt_resource_model_source.py:38-50 | an unset setting asks for no grain; a set one asks for at least one name, and no name holds a comma |
| ResourceModel.RequestedNamesJoin | contents/salt_resource_model_source.py:41 | the names asked for are exactly the pieces between the commas, and those pieces join back into the setting |
| ResourceModel.PrepareGrains | contents/salt_resource_model_source.py:53-65 | the grains asked for are the five defaults, the tag grains and the attribute grains, and nothing else |
| ResourceModel.Enumerate | contents/salt_resource_model_source.py:77 | iterating a set visits each element exactly once |
| ResourceModel.EnumerationSize | contents/salt_resource_model_source.py:77 | an enumeration is as long as the set |
| ResourceModel.GrainsRequest | contents/salt_resource_model_source.py:73-85 | the `grains.item` request has `kwarg` holding `timeout` and `gather_job_timeout` exactly when those settings are set |
| ResourceModel.OsFamily | contents/salt_resource_model_source.py:110-121 | the lookup succeeds exactly when the family is hashable |
| ResourceModel.OsFamilyTable | contents/salt_resource_model_source.py:114-121 | Linux, AIX, MacOS and VMware map to `unix`, Windows to `windows`, and every other family stays unchanged |
| ResourceModel.OsFamilyIdempotent | contents/salt_resource_model_source.py:110-121 | mapping a family twice equals mapping it once |
| ResourceModel.OsArch | contents/salt_resource_model_source.py:168 | `osArch` is `x86_64` exactly for `x86_64` and `AMD64`, and the architecture unchanged otherwise |
| ResourceModel.OsArchIdempotent | contents/salt_resource_model_source.py:168 | normalising an architecture twice equals normalising it once |
| ResourceModel.TagsOfConcat | contents/salt_resource_model_source.py:128-135 | the tags of a concatenation of requests are the concatenated tags |
| ResourceModel.TagsOf | contents/salt_resource_model_source.py:124-135 | definition of the tags `process_tags` collects; properties in `TagsOfConcat`, `TagsOfMember` and `ProcessTags` |
| ResourceModel.TagsOfMember | contents/salt_resource_model_source.py:128-135 | a value is a tag exactly when some requested tag contributes it: an element of a list grain, or a truthy non-list grain |
| ResourceModel.ProcessTags | contents/salt_resource_model_source.py:124-135 | the loop's list is the in-order concatenation of what each requested tag contributes |
| ResourceModel.AttributeName | contents/salt_resource_model_source.py:144 | an attribute's key is never a reserved name |
| ResourceModel.AttributesOf | contents/salt_resource_model_source.py:142-151 | no attribute key is reserved, and every value is a truthy string or integer |
| ResourceModel.AttributesOfKeys | contents/salt_resource_model_source.py:142-151 | the keys are exactly the renamed names of the kept grains, each holding the grain of such a name |
| ResourceModel.ProcessAttributes | contents/salt_resource_model_source.py:138-151 | the loop's dictionary is `AttributesOf` the requested names |
| ResourceModel.NodeName | contents/salt_resource_model_source.py:163 | definition of the node name; properties in `NodeNameInjective` and `ResourceModelKeys` |
| ResourceModel.NodeNameInjective | contents/salt_resource_model_source.py:163 | distinct minions never get the same node name |
| ResourceModel.WellFormedReply | contents/salt_resource_model_source.py:165-172 | definition of a reply the entry can be read from; properties in `Entry` and `ResourceModelFails` |
| ResourceModel.Entry | contents/salt_resource_model_source.py:165-176 | an entry exists exactly when the reply can be read |
| ResourceModel.FixedFieldsReserved | contents/salt_resource_model_source.py:158-173 | the fixed fields are all reserved names |
| ResourceModel.EntryFields | contents/salt_resource_model_source.py:166-176 | an entry's keys are the fixed fields plus the attributes; the fixed fields hold the values computed from the grains, so `model.update` never overwrites them |
| ResourceModel.EntryOfGrains | contents/salt_resource_model_source.py:166-176 | helper for `EntryFields`: a readable reply's entry, spelled out from its grains |
| ResourceModel.NodesFromKeys | contents/salt_resource_model_source.py:162-178 | the node names are those of the listed minions |
| ResourceModel.NodesFromAt | contents/salt_resource_model_source.py:162-178 | a listed minion's node holds that minion's entry |
| ResourceModel.NodesFromStep | contents/salt_resource_model_source.py:178 | helper for `GenerateResourceModel`: visiting one more readable minion stores its entry under its node name |
| ResourceModel.ResourceModelOf | contents/salt_resource_model_source.py:154-180 | definition of the model `generate_resource_model` returns; properties in `ResourceModelFails`, `ResourceModelKeys`, `ResourceModelNode` and `ResourceModelOrderFree` |
| ResourceModel.ResourceModelFails | contents/salt_resource_model_source.py:162-178 | building the model fails exactly when some reply cannot be read |
| ResourceModel.ResourceModelKeys | contents/salt_resource_model_source.py:162-178 | the model's keys are exactly the node names of the minions (`prefix + m` when the prefix is truthy, else `m`) |
| ResourceModel.ResourceModelNode | contents/salt_resource_model_source.py:162-178 | a minion's node holds its entry, and that entry's `nodename` is the node's own key |
| ResourceModel.ResourceModelOrderFree | contents/salt_resource_model_source.py:162 | the order in which the response lists the minions does not change the model |
| ResourceModel.BuildEntry | contents/salt_resource_model_source.py:163-176 | building one entry step by step gives `Entry` |
| ResourceModel.GenerateResourceModel | contents/salt_resource_model_source.py:154-180 | the loop's model is `ResourceModelOf` the replies in the order listed |
| ResourceModel.CollectMinionsGrains | contents/salt_resource_model_source.py:68-107 | a failed login prints the exception and exits with 1 before any request; otherwise one `grains.item` request for the grains asked for is sent, and the minions' replies are read out of the answer |
| ResourceModel.GenerateSource | contents/salt_resource_model_source.py:205-224 | a falsy required setting exits with 1 before any login; once the checks pass and the login succeeds, exactly one `grains.item` request is sent; a failed call prints the exception and exits with 1; otherwise the resource model built from the replies is printed with status 0, or status 1 where a reply cannot be read |

## Left out

- The Salt API server, network access, `print`, `sys.exit` and logging. Each run returns what it printed, logged, sent and its exit status. The API's replies are a function of the requests sent so far.
- Log levels, `configure_logging` and the debug output. `sanitize_dict` itself is modelled.
- gzip and base64. `Compressor.Compress` is a stand-in (gzip magic, then the window) that keeps the one property the transfer relies on: each chunk decompresses to its window. Requests carry the raw chunk bytes as an `Encoded` argument instead of base64 text.
- `os.path.normpath`, `os.path.exists`, `isfile` and `os.access`. `normpath` is a function parameter, and the readable regular files are a map from path to contents.
- `file_mode` and `os.stat`. As written, the mode is always `None`.
- The tokenizing of `shlex.split`. It is a parameter that either gives the tokens or fails.
- `json.dumps`. The printed model is the JSON value `ModelValue`.
- A chunk size of 0, which makes `compress_file` loop forever (see Findings). The copier's members take it as excluded by the precondition `data["chunk-size"] != Number(0)`.
- An uncaught exception is modelled as exit status 1 without its traceback. Examples are an `IndexError` or `AttributeError` on a malformed response, and the `ValueError` of the generator. The text `sys.exit` writes to standard error for a non-integer code is not modelled either.
- `PyValue.ExitStatus`: an integer beyond the range of a C `long` is taken modulo 256, whereas CPython turns it into exit code -1, which is status 255.
- The file copier's `chunk-size` is never a float. `parse_data` reads it with `int()`. `CompressFile` and `ChunkStream` still cover float and string chunk sizes.
- `int()` is modelled for ASCII digits with single underscores, an optional sign and surrounding white space. Other Unicode digits are not accepted.
- `PyStr.Lower`: `lower()` is modelled on ASCII capitals only. That is enough for the boolean tokens.
- The iteration order of Python's sets and dictionaries. `Enumerate` picks one order, and the resource model is proved independent of the minions' order.
- `ResourceModel.GenerateSource`: the tag and attribute sets are enumerated once per run, whereas the script rebuilds them for every minion. CPython iterates equal sets built the same way in the same order.
- Settings of unexpected types, such as a non-string prefix, which make the script raise a `TypeError`. The settings are taken in the shapes `parse_data` produces.

## Findings

| source | as written | input that shows it | evidently intended | confidence | as-written member | corrected member |
|---|---|---|---|---|---|---|
| contents/salt_resource_model_source.py:194 | the node-name prefix is read from `RD_CONFIG_REFIX` | an environment with `RD_CONFIG_PREFIX=web-` and no `RD_CONFIG_REFIX`: the prefix stays `None` and nodes are named by bare minion id | read `RD_CONFIG_PREFIX`, the variable Rundeck exports for the `prefix` property | high (not executed) | ResourceModel.PrefixIgnoredAsWritten | ResourceModel.PrefixReadCorrected |
| contents/salt_file_copier.py:54-63 | a chunk size of 0 reads 0 bytes, which equals the chunk size, so the loop never ends | `chunk-size` set to `0`: every `next()` yields the compressed empty window and reads nothing, and `main` sends empty chunks without end, as long as the minion acknowledges each | accept only a positive chunk size, or stop at a short read | high (not executed) | Compressor.ChunkStream.Next | Compressor.ChunksRoundTrip |
