# Lab::Vm in Dafny

A model of `Lab::Vm`, the entity of the `lab` library that stands for one
virtual machine of a test lab. The file `lib/lab/vm.rb` covers:

- **Construction from a configuration hash.** `initialize` checks the id,
  derives the hostname and the other defaults, and runs the sanitizing
  filter over the driver, location, type, first credential and connection
  fields. The driver String is lower-cased in place, so the caller's hash
  holds the lower-cased driver afterwards. Construction then selects one of
  eight driver families by that driver type, hands the hash to the new
  driver, and stores the remaining fields unexamined.
- **The sanitizing filter.** `filter_input` passes nil and false as `""`
  and other non-strings as nil. A string that matches the allow-list
  pattern passes unchanged, and any other string raises.
- **The forwarding operations.** Each of these makes exactly one driver
  call and returns the driver's reply. `revert_and_start` and `open_uri`
  are composed from them.
- **The serializers.** `to_s` and `to_yaml`.

The pattern is anchored with Ruby's `^` and `$`, which are line anchors
and not string anchors. The model keeps that meaning exactly:

- `Sanitizer.PatternMatches` says what Ruby's `=~` reports.
- `Sanitizer.MatchFrom` is the model's own line-by-line procedure for deciding that match; the filter calls it.
- The two are proved equivalent.

As a consequence, a multi-line string passes once one of its lines is made
of allowed characters. The model proves this about the code as written: a
newline followed by the allowed line `ok` lets `x;rm -rf /` through, and so
does an empty line. A single-line string passes exactly when every
character is allowed.

Modules, one per file:

- `Wrappers`: Option and Result.
- `RubyValues`: configuration values, truthiness, `to_s`, `String#[]` and
  `Hash#[]`, `strip`, `downcase`.
- `Sanitizer`: `filter_input`.
- `Drivers`: the families, the driver call contract, and a driver object
  that records its calls.
- `VmConfig`: `Setup`, the functional specification of `initialize`, and
  its properties.
- `VmYaml`: `Yaml`, the specification of `to_yaml`, and its properties.
- `Lab`: the `Vm` class. It holds the constructing method `Create`, the
  forwarding methods, `OpenUri`, `ToString`, and the imperative `ToYaml`,
  each proved against the specification functions.

Some parts of the system are parameters or abstractions:

- **Driver backends.** A driver's answer to a call is given by a `backend`
  function of the calls made before and the call itself. It returns a value
  or raises.
- **Ruby's `inspect` and the YAML library's `to_yaml`.** These are the
  parameters `inspect` and `dump`.
- **Core-library exceptions.** The `NoMethodError`, `TypeError` and
  `ArgumentError` raised by `nil.downcase!`, `5['user']` or
  `"abc".count` become the single error `RubyError`.

## Model

| member | source | states |
|---|---|---|
| RubyValues.Or | lib/lab/vm.rb:51 | `a \|\| b` is truthy iff either operand is; it is the first operand when that is truthy and the second otherwise |
| RubyValues.StringIndex | lib/lab/vm.rb:70-72 | `String#[]` with a String argument yields the argument exactly when it occurs in the string, and nil otherwise |
| RubyValues.Index | lib/lab/vm.rb:70-72 | `v[key]` succeeds exactly on hashes, Strings and Symbols; a hash yields the key's value or nil; a String answers as `String#[]`, and a Symbol as its name would; nil, booleans, numbers and arrays raise |
| RubyValues.OccursAt | lib/lab/vm.rb:70 | the substring search used by `String#[]` holds exactly when the key stands at some index of the string |
| RubyValues.StripEmptyIffBlank | lib/lab/vm.rb:47 | `s.strip` is empty exactly when every character of `s` is NUL or whitespace |
| RubyValues.Downcase | lib/lab/vm.rb:57 | lower-casing keeps the length and maps every character through ASCII `downcase` |
| RubyValues.DowncaseIdempotent | lib/lab/vm.rb:57 | lower-casing a lower-cased string changes nothing |
| RubyValues.ToS | lib/lab/vm.rb:46 | the reference definition of `to_s`: a String is itself, a Symbol its name, nil is `""`, true and false their names, a number its text, arrays and hashes what the `inspect` parameter gives; `SetupVmid` states what construction does with it |
| Sanitizer.PatternMatches | lib/lab/vm.rb:294 | the reference definition of Ruby's match of the anchored pattern: some span from a line start (`^`, never at the end after a final newline) to a line end (`$`) holds allowed characters only; `MatchesPatternCorrect` ties the filter's test to it |
| Sanitizer.LineEndFrom | lib/lab/vm.rb:294 | the first line end at or after a position: the next newline, or the end of the string, with no newline in between |
| Sanitizer.MatchFrom | lib/lab/vm.rb:294 | the line-by-line procedure the filter calls: whether the line that starts at a position, or a later line, consists of allowed characters only; `MatchFromSound` proves it agrees with `PatternMatches` |
| Sanitizer.FilterInput | lib/lab/vm.rb:290-299 | nil and false give `""`; other non-strings give nil; a string that the pattern matches (with `^`/`$` as line anchors) is returned unchanged, any other raises "Invalid character" with the string; whatever string it returns matches the pattern |
| Sanitizer.MatchesPatternCorrect | lib/lab/vm.rb:294 | the line-by-line test decides exactly Ruby's match of the anchored pattern |
| Sanitizer.MatchFromSound | lib/lab/vm.rb:294 | from a line start `p`, the line-by-line test succeeds iff some span from a `^` at or after `p` to a `$` contains only allowed characters |
| Sanitizer.AllowListedAccepted | lib/lab/vm.rb:294-298 | a string of allowed characters only passes unchanged, newlines or not |
| Sanitizer.NewlineFreeAllowList | lib/lab/vm.rb:294-298 | without a newline, a string passes iff every character is allowed, and otherwise raises with that string |
| Sanitizer.RejectsShellMetacharacters | lib/lab/vm.rb:294-296 | a single-line string containing a semicolon, pipe, ampersand, dollar sign, backquote or single quote raises |
| Sanitizer.MetacharacterRejected | lib/lab/vm.rb:294 | none of the semicolon, pipe, ampersand, dollar sign, backquote and single quote is in the character class |
| Sanitizer.LineAnchorBypass | lib/lab/vm.rb:294 | any text followed by a newline and a non-empty line of allowed characters passes unchanged |
| Sanitizer.EmptyLineBypass | lib/lab/vm.rb:294 | any text containing an empty line (two consecutive newlines) passes unchanged |
| Sanitizer.InjectionExample | lib/lab/vm.rb:294-296 | `x;rm -rf /` raises on its own but passes once followed by a newline and `ok` |
| Sanitizer.DowncaseKeepsVerdict | lib/lab/vm.rb:56-57 | lower-casing a string does not change whether the pattern matches it |
| Drivers.FamilyOf | lib/lab/vm.rb:88-110 | the selected family's name is the driver type; no family is selected when no family has that name |
| Drivers.FamilyOfName | lib/lab/vm.rb:88-103 | each family is selected by its own name and by no other string |
| Drivers.ExtraConfig | lib/lab/vm.rb:95-97 | only fog and dynagen get a second constructor argument: `config['fog_config']` and `config['dynagen_config']` respectively |
| Drivers.Driver.Invoke | lib/lab/vm.rb:158 | a driver call is appended to the driver's call log and answered by the backend from the calls before it |
| VmConfig.FirstCredential | lib/lab/vm.rb:69-73 | the reference definition of the first-credential step: `['user']`, `['pass']` and `['keyfile']` looked up and filtered in that order; a non-String user or pass (the filter returns nil) becomes `''`, a missing one becomes `""`; `MinimalCredential`, `FirstCredentialErrorKind` and `ActiveCredentialInOrder` state its behaviour |
| VmConfig.ActiveCredentialOf | lib/lab/vm.rb:68-73 | the reference definition of lines 68-73: no credential for an empty list, else the first entry's; `ActiveCredentialSanitary` states its result |
| VmConfig.RemoteFields | lib/lab/vm.rb:76-79 | the reference definition of the connection fields: user, host, port and pass filtered in that order; `RemoteFieldsInOrder` and `RemoteFieldsSanitary` state its behaviour |
| VmConfig.DriverType | lib/lab/vm.rb:56-57 | the reference definition of the driver step: the filtered driver, lower-cased, and a core-library error when the filter gave nil; `DriverTypeCaseInsensitive`, `NonStringDriverRaises` and `ScreenInOrder` state its behaviour |
| VmConfig.ScreenRest | lib/lab/vm.rb:59-79 | the reference definition of the sanitizing steps after the driver: location, type (nil becoming "unspecified"), credentials, first credential and connection fields, in that order |
| VmConfig.Screen | lib/lab/vm.rb:56-79 | the reference definition of all sanitizing steps: the driver step, then the rest; `ScreenInOrder`, `ScreenSanitary` and `Lab.Sanitize` state its behaviour |
| VmConfig.Setup | lib/lab/vm.rb:42-110 | the reference definition of `initialize`: the id check, the sanitizing steps, then the dispatch on the driver type; `SetupVmid`, `SetupWellFormed`, `SetupScreensInOrder`, `SetupError` and `Lab.Create` state its behaviour |
| VmConfig.Assemble | lib/lab/vm.rb:46-85 | the reference definition of the VM's fields: the sanitized ones, the hostname and description defaults, and the fields stored as given; `SetupDefaults` states them |
| VmConfig.CredentialList | lib/lab/vm.rb:66-70 | `config['credentials'] \|\| []` gives no entries when it is absent, false or an empty hash, and its items when it is an array; a non-empty hash is counted but its `[0]` is nil, so `nil['user']` on line 70 raises, and every other value raises at `count` |
| VmConfig.SetupVmid | lib/lab/vm.rb:46-47 | construction raises "Invalid VMID" exactly when `vmid.to_s` is blank; a constructed VM stores `vmid.to_s` |
| VmConfig.ScreenErrorKind | lib/lab/vm.rb:56-79 | the sanitizing steps raise only the filter's "Invalid character" or a core-library error, never "Invalid VMID" or "Unknown Driver Type" |
| VmConfig.FirstCredentialErrorKind | lib/lab/vm.rb:70-72 | sanitizing the first credential raises only the filter's error or a core-library one |
| VmConfig.RemoteFieldsErrorKind | lib/lab/vm.rb:76-79 | sanitizing the connection fields raises only the filter's error |
| VmConfig.SetupDefaults | lib/lab/vm.rb:49-85 | for a constructed VM: hostname is `hostname`, else `name_label`, else the id; description is `description \|\| name_description`; an absent type becomes `""`, a string type is kept, another truthy type becomes "unspecified"; notes, tools, os, arch, platform, fog_config, and (lines 152-153) machine_tags and snapshots are stored as given |
| VmConfig.RemoteFieldsSanitary | lib/lab/vm.rb:76-79 | every connection field that is set matches the pattern |
| VmConfig.ActiveCredentialSanitary | lib/lab/vm.rb:68-73 | an active credential exists exactly when the list is non-empty; it comes from the first entry, and its user and pass match the pattern or are the `''` placeholder |
| VmConfig.ScreenSanitary | lib/lab/vm.rb:56-79 | after sanitizing, location, type, connection fields and the active credential all match the pattern (type may be "unspecified") |
| VmConfig.SetupWellFormed | lib/lab/vm.rb:42-110 | a constructed VM has a non-blank id, a driver type naming its family, the family's extra argument, and sanitized fields; its active credential is the first entry's |
| VmConfig.SetupScreening | lib/lab/vm.rb:66-79 | a constructed VM stores the sanitized connection fields and the credential list as the sanitizing steps computed them |
| VmConfig.FirstRejected | lib/lab/vm.rb:56-79 | the first rejected value is a string at some position that the filter rejects, and the filter accepts every value before that position; none is rejected iff the filter accepts every value |
| VmConfig.RemoteFieldsInOrder | lib/lab/vm.rb:76-79 | user, host, port and pass are filtered in that order, and the first rejected one is reported |
| VmConfig.ActiveCredentialInOrder | lib/lab/vm.rb:68-73 | when the first credential is a hash, a String or a Symbol, what its `['user']`, `['pass']` and `['keyfile']` give is filtered in that order, and the first rejected one is reported |
| VmConfig.ScreenInOrder | lib/lab/vm.rb:56-79 | on well-shaped input the sanitizing steps raise iff some screened value is rejected, and then with the first one in source order; the driver type is the lower-cased driver string |
| VmConfig.ScreenedFirstRejected | lib/lab/vm.rb:56-79 | the first rejected screened value, taken stage by stage: driver, location, type, first credential, connection fields |
| VmConfig.SetupScreensInOrder | lib/lab/vm.rb:46-110 | on well-shaped input (a String or absent driver; credentials absent, an empty hash, or an array whose first entry is a hash, a String or a Symbol) with a valid id, construction raises for the first rejected screened value; when none is rejected, it succeeds iff the lower-cased driver names a family, and raises "Unknown Driver Type" otherwise |
| VmConfig.NonStringDriverRaises | lib/lab/vm.rb:56-57 | a truthy non-string driver becomes nil and `downcase!` raises on it |
| VmConfig.AbsentDriverUnknown | lib/lab/vm.rb:56-109 | an absent driver becomes `""`, which names no family: "Unknown Driver Type" |
| VmConfig.DriverCaseInsensitive | lib/lab/vm.rb:56-110 | driver strings that agree after lower-casing, with all other keys equal, give the same VM or both fail |
| VmConfig.DriverCaseScreen | lib/lab/vm.rb:56-79 | the same for the sanitizing steps alone |
| VmConfig.DriverTypeCaseInsensitive | lib/lab/vm.rb:56-57 | the same for the driver step alone |
| VmConfig.AssembleCongruent | lib/lab/vm.rb:49-85 | the assembled fields depend only on hostname, name_label, description, name_description, notes, tools, os, arch, platform, fog_config, machine_tags and snapshots, besides the id and the screening |
| VmConfig.SameAssembly | lib/lab/vm.rb:49-85 | the unsanitized fields, and the drivers' extra arguments, do not depend on the `driver` key |
| VmConfig.SettingsIgnoreDynagenConfig | lib/lab/vm.rb:97 | `dynagen_config` changes neither whether construction succeeds nor any field of the VM, nor the family |
| VmConfig.OutcomeDependsOnScreenedKeys | lib/lab/vm.rb:42-110 | which exception construction raises, or none, depends only on whether the id is blank and on the screened keys |
| VmConfig.LaterCredentialsIrrelevant | lib/lab/vm.rb:68-73 | only the first credential is sanitized: the entries after it never change the outcome |
| VmConfig.LaterCredentialsScreen | lib/lab/vm.rb:68-73 | the same for the sanitizing steps and the driver type |
| VmConfig.SetupError | lib/lab/vm.rb:46-110 | the exception of construction, stage by stage: blank id, then the sanitizer's, then the unknown driver type |
| VmConfig.LowerDriver | lib/lab/vm.rb:56-57 | a driver String in the hash is replaced by its lower-casing; a non-String driver leaves the hash as it was; no other key changes |
| VmConfig.ConfigAfter | lib/lab/vm.rb:46-57 | the reference definition of the caller's hash after construction: the driver is lower-cased when the id check passed and the driver passed the filter |
| VmConfig.LowerDriverKeepsExtra | lib/lab/vm.rb:95-97 | the fog and dynagen configurations a driver receives are the same in the changed hash |
| VmConfig.ConfigAfterSetup | lib/lab/vm.rb:46-57 | construction changes at most the driver entry of the caller's hash; a non-String driver or an invalid id leaves it as it was; after a successful construction the entry holds the driver type the VM records |
| VmConfig.SetupDriverType | lib/lab/vm.rb:56-57 | a constructed VM records the result of the driver step as its driver type |
| VmConfig.SetupAgain | lib/lab/vm.rb:42-110 | constructing a second VM from the changed hash succeeds exactly when the first construction did, and then gives the same VM |
| VmConfig.SymbolCredentialExample | lib/lab/vm.rb:69-73 | a Symbol credential `:admin` answers nil to each lookup, which the filter turns into `""`: construction takes it, with empty user, pass and keyfile |
| VmConfig.NotOccurs | lib/lab/vm.rb:70-72 | `String#[]` gives nil for a key whose first character matches the string at no position where the key would fit |
| VmConfig.MinimalCredential | lib/lab/vm.rb:69-72 | a `{user, pass}` hash of allowed strings gives those as user and pass, with keyfile `""` |
| VmConfig.ScreenOf | lib/lab/vm.rb:56-79 | when every sanitizing step succeeds, their results form the screening, with the lower-cased driver and nil type as "unspecified" |
| VmConfig.SetupOf | lib/lab/vm.rb:46-110 | a non-blank id, successful sanitizing and a known family give the VM assembled from them |
| VmConfig.MinimalConfigShape | lib/lab/vm.rb:46-79 | what the minimal configuration holds under each key that construction reads |
| VmConfig.MinimalScreen | lib/lab/vm.rb:56-79 | sanitizing the minimal configuration yields location `""`, type `""`, user, host, port and pass each `""` (the filter's result for nil), and the credential as active one |
| VmConfig.MinimalConfigSetup | lib/lab/vm.rb:42-110 | `{vmid, driver, credentials: [{user, pass}]}` with allowed strings and a known driver constructs a VM of that family, hostname the id, type `""`, the credential active |
| VmConfig.MinimalShapeSetup | lib/lab/vm.rb:42-110 | the same for any configuration of that shape |
| VmConfig.VirtualBoxExample | lib/lab/vm.rb:92-93 | `{vmid: "vm-1", driver: "VirtualBox", ...}` selects the VirtualBox family and uses "vm-1" as hostname |
| VmConfig.VirtualBoxConfigAfter | lib/lab/vm.rb:56-57 | after constructing from `{vmid: "vm-1", driver: "VirtualBox", ...}` the caller's hash holds `driver: "virtualbox"` |
| VmConfig.VirtualBoxNamesFamily | lib/lab/vm.rb:57-93 | "VirtualBox" lower-cased selects the VirtualBox family |
| VmConfig.VirtualBoxLowered | lib/lab/vm.rb:57 | "VirtualBox" lower-cases to "virtualbox" |
| VmConfig.DowncaseOf | lib/lab/vm.rb:57 | a string is the lower-casing of another when the two have equal length and agree character by character after `downcase` |
| VmConfig.VirtualBoxStrings | lib/lab/vm.rb:47 | "vm-1" is not blank, and the example's driver, user and pass strings are allowed |
| VmConfig.RejectedLocation | lib/lab/vm.rb:59 | with a valid id and an allowed driver, a single-line location with a shell metacharacter aborts construction with the filter's error for the location |
| VmConfig.BadLocationExample | lib/lab/vm.rb:59 | `location: "C:\vms\bad;rm -rf"` aborts construction with that error |
| VmYaml.RemoteBlock | lib/lab/vm.rb:261-266 | the connection block is emitted iff user or host is set, and then holds the four lines in order |
| VmYaml.PlatformBlock | lib/lab/vm.rb:268-270 | the platform line appears iff the platform is truthy |
| VmYaml.FogBlock | lib/lab/vm.rb:272-274 | the fog configuration's dump appears iff it is truthy |
| VmYaml.CredentialEntry | lib/lab/vm.rb:282-283 | a credential's entry exists iff `credential['user']` can be evaluated, that is for a hash, a String or a Symbol; for a hash it is its user line and pass line |
| VmYaml.Join | lib/lab/vm.rb:281-284 | the joined entries succeed iff every entry does; otherwise the error is that of the first failing entry |
| VmYaml.CredentialsText | lib/lab/vm.rb:281-284 | the credential section succeeds iff every credential can be indexed, and otherwise raises a core-library error |
| VmYaml.Yaml | lib/lab/vm.rb:246-287 | the document is produced iff every credential can be indexed |
| VmYaml.JoinSnoc | lib/lab/vm.rb:281-284 | adding a credential at the end adds its entry at the end |
| VmYaml.JoinStep | lib/lab/vm.rb:281-284 | one more credential extends the section by its entry |
| VmYaml.JoinAppend | lib/lab/vm.rb:281-284 | the section of a concatenation is the concatenation of the sections |
| VmYaml.CredentialsInOrder | lib/lab/vm.rb:281-284 | each credential's entry sits between those of the credentials before and after it |
| VmYaml.YamlLayout | lib/lab/vm.rb:251-287 | a produced document starts with the header and ends with the credentials line and section |
| VmYaml.SetupRemoteBlock | lib/lab/vm.rb:76-79 | for a constructed VM the connection block is missing iff both user and host are truthy non-strings |
| VmYaml.LocalVmEmitsRemoteBlock | lib/lab/vm.rb:261-266 | a VM without user and host still emits the connection block, with empty user and host |
| VmYaml.SetupYamlFailure | lib/lab/vm.rb:69-71 | for a constructed VM only a credential after the first can make `to_yaml` raise |
| VmYaml.DynagenConfigNotSerialized | lib/lab/vm.rb:276-278 | `dynagen_config` never reaches the document: `@dynagen_config` is never assigned |
| Lab.DowncaseInPlace | lib/lab/vm.rb:57 | the buffer afterwards holds the lower-casing of its old contents |
| Lab.BrowserCommand | lib/lab/vm.rb:233-237 | the command ends with the uri unchanged and starts with the Internet Explorer command on windows, `firefox ` otherwise |
| Lab.BrowserCommandInjective | lib/lab/vm.rb:230-237 | the uri is passed through unfiltered and can be recovered: different uris give different commands |
| Lab.Vm.IsRunning | lib/lab/vm.rb:157-159 | one `running?` call is logged and its reply returned |
| Lab.Vm.Location | lib/lab/vm.rb:161-163 | one `location` call to the driver is logged and the driver's reply returned |
| Lab.Vm.Start | lib/lab/vm.rb:165-167 | one `start` call is logged and its reply returned |
| Lab.Vm.Stop | lib/lab/vm.rb:169-171 | one `stop` call is logged and its reply returned |
| Lab.Vm.Pause | lib/lab/vm.rb:173-175 | one `pause` call is logged and its reply returned |
| Lab.Vm.Suspend | lib/lab/vm.rb:177-179 | one `suspend` call is logged and its reply returned |
| Lab.Vm.Reset | lib/lab/vm.rb:181-183 | one `reset` call is logged and its reply returned |
| Lab.Vm.Resume | lib/lab/vm.rb:185-187 | one `resume` call is logged and its reply returned |
| Lab.Vm.QuerySnapshots | lib/lab/vm.rb:189-191 | one `query_snapshots` call is logged and its reply returned |
| Lab.Vm.CreateSnapshot | lib/lab/vm.rb:193-195 | one `create_snapshot(snapshot)` call is logged and its reply returned |
| Lab.Vm.RevertSnapshot | lib/lab/vm.rb:197-199 | one `revert_snapshot(snapshot)` call is logged and its reply returned |
| Lab.Vm.DeleteSnapshot | lib/lab/vm.rb:201-203 | one `delete_snapshot(snapshot)` call is logged and its reply returned |
| Lab.Vm.RevertAndStart | lib/lab/vm.rb:205-208 | revert, then start; a revert that raises ends the operation with its exception and no start is made; otherwise both calls are logged and start's reply is returned |
| Lab.Vm.CopyTo | lib/lab/vm.rb:210-212 | one `copy_to(from, to)` call is logged and its reply returned |
| Lab.Vm.CopyFrom | lib/lab/vm.rb:214-216 | one `copy_from(from, to)` call is logged and its reply returned |
| Lab.Vm.RunCommand | lib/lab/vm.rb:218-220 | one `run_command(command)` call is logged and its reply returned |
| Lab.Vm.CheckFileExists | lib/lab/vm.rb:222-224 | one `check_file_exists(file)` call is logged and its reply returned |
| Lab.Vm.CreateDirectory | lib/lab/vm.rb:226-228 | one `create_directory(directory)` call is logged and its reply returned |
| Lab.Vm.OpenUri | lib/lab/vm.rb:230-240 | exactly one `run_command` with the browser command for the configured OS is logged, and its reply returned |
| Lab.Vm.ToString | lib/lab/vm.rb:242-244 | a string hostname prints as itself, an absent one as `""` |
| Lab.Vm.ToYaml | lib/lab/vm.rb:246-287 | building the document line by line yields the document `Yaml` describes, or the same exception |
| VmYaml.Header | lib/lab/vm.rb:251-259 | the reference definition of the nine header lines: vmid, hostname, driver, description (after a `\|` line), location, type, tools, os and arch, each value interpolated with `to_s`; `YamlLayout` and `Lab.WriteHeader` state its place in the document |
| Lab.WriteHeader | lib/lab/vm.rb:251-259 | the nine header lines, in order |
| Lab.WriteOptionalBlocks | lib/lab/vm.rb:261-274 | the connection, platform and fog blocks appended in that order, each only when its condition holds |
| Lab.WriteCredentials | lib/lab/vm.rb:280-284 | the loop appends each credential's entry in order, and raises as soon as a credential cannot be indexed |
| Lab.CredentialStep | lib/lab/vm.rb:282-283 | one iteration extends the document by that credential's entry |
| Lab.CreatedToString | lib/lab/vm.rb:49-54 | `to_s` of a constructed VM prints `hostname`, else `name_label`, else the id |
| Lab.Sanitize | lib/lab/vm.rb:56-79 | the sanitizing steps, executed in order, give exactly the screening `Screen` describes, or its exception; the driver is lower-cased in place in a character buffer, and the hash returned beside the result holds that lower-cased driver whenever a driver String passed the filter, and is unchanged otherwise |
| Lab.NewDriver | lib/lab/vm.rb:87-110 | a new driver is created iff the driver type names a family; it is of that family, built with the given hash and the family's extra argument taken from it, and has received no call |
| Lab.Create | lib/lab/vm.rb:42-155 | construction fails exactly when `Setup` does, with the same exception; the caller's hash afterwards is `ConfigAfter`, whether construction returned or raised; on success it yields a new VM holding `Setup`'s fields and a new driver of its family, built with that changed hash, on which no call has been made; the VM satisfies the invariant |

## Left out

- Modifiers (lines 117-125): each entry of `config['modifiers']` is evaluated as Ruby code inside the new VM, and the result is included into the class. An entry that is not a module name can overwrite sanitized fields or run commands. The model assumes every entry names a module and changes no field; only the raise/no-raise outcome of construction is independent of the entries, every exception being rescued.
- The concrete driver classes, whose files are not part of this model: a driver is a family, its constructor arguments, a call log, and a backend function that answers each call.
- `Array#inspect`, `Hash#inspect` and `Object#to_yaml` are library code: they are the parameters `inspect` and `dump`.
- `downcase!` is modelled for ASCII letters only; Ruby's full Unicode case mapping is not. The classes `\w`, `\d` and `\s` of the pattern follow Ruby 2.2 and later, where they are ASCII-only and `\s` includes the vertical tab; before 2.2 `\s` did not match the vertical tab.
- Configuration hashes have string keys only. Symbol keys and the `Scalar` objects' own `to_s` are not modelled beyond the text they print.
- Snapshot names, file paths and commands are passed to the driver as strings: the driver interprets them, outside this model.
- No YAML parser: the model states what `to_yaml` emits, not that a YAML reader would parse it back.
- Ruby's own exceptions (NoMethodError, TypeError, ArgumentError) are one error, `RubyError`, without their messages.
- The `@dynagen_config` branch of `to_yaml` (lines 276-278) can never run, because `initialize` never assigns the field. It is not modelled, and `VmYaml.DynagenConfigNotSerialized` proves that it has no effect.
- `credentials: {}` is stored by Ruby as the empty hash, while `Setup` stores the empty list. `count` and `each` treat both alike, so construction and `to_yaml` agree; only the `credentials` reader (line 15) would tell them apart.
- The `attr_accessor` setters and the `@modifiers` field are not modelled: the model's VM fields are constants set at construction.
- Lab.Create: the driver constructors are taken not to raise, since their code is not part of this model; an exception from one of them would end construction after the hash has changed.
- The configuration hash is a value: `Lab.Create` returns the changed hash, and a driver keeps the hash as it stood at the dispatch. Later changes the caller makes to it, and a driver String object shared with another key or another hash (which `downcase!` would change too), are not modelled.
- The code is followed where its comments or the library's documentation say otherwise:
  - the id is not sanitized;
  - an absent type is stored as `""`, not "unspecified";
  - the connection block is emitted for local VMs too, because `filter_input(nil)` is `""`, which is truthy.
- Lab.Vm.ToString: its contract gives the result for string and absent hostnames only; for other objects the result is Ruby's `to_s`, as `RubyValues.ToS` defines it.
