# PDBB core in Dafny

A model of the deterministic core of PDBB, a modular chat bot, together with
proofs of what that core promises. The model covers four parts.

- **Typed configuration fields.** These are `Int`, `Bool`, `Color`, `Str`,
  `List`, `Dict` and the chat-platform fields `Guild`, `User`, `Channel`
  and `Role`, in both revisions of the package: the current one under
  `src/config/config_types` and the legacy one under `config/config_types`.
  - `FieldTypes` and `FieldOps` give each kind's `check_value`, `set`, `get`,
    `to_save` and `load` as functions from the old state to the result and the
    new state.
  - `Fields.Field` is the field object. Its methods update its attributes in
    place and are proved to compute those functions. The list and dict loops
    are written as loops.
  - `FieldSpec` stands for a class made by `factory(...)`.
  - `PyValues` models the Python values and built-ins those operations use.
- **The configuration container** (`Configs.Config`), in both revisions:
  `register`, the bulk `set`, `save`, `load` and `config[name]`. The file is
  modelled as the sequence of `name = value` lines the TOML encoder writes.
- **The module loader** (`Modules.ModuleManager`): recursive load-on-demand
  over a table of module metadata, with the `modules` and `dispatch_modules`
  registries.
- **Small text processors.**
  - the command parser `_parse_command_content` of the base module
    (`Commands`) and its permission test `auth` (`Authorisation`);
  - `write_with_number` (`Emojis`);
  - the IRC backend's parse of a PRIVMSG line over bytes (`Irc`, with UTF-8
    decoding in `Utf8`). The line has the `:prefix COMMAND target :text`
    framing of section 2.3.1 of RFC 1459 and the PRIVMSG command of section
    4.4.1.

Each operation is paired with either its inverse (encode and decode,
`to_save` and `load`, split and join), an invariant it keeps, or a reference
definition. Lemmas connect each pair.

Proving natural contracts showed several places where the code does not do
what its names or documentation suggest. Each is stated twice. First a lemma
about the code as written shows the discrepancy; the rest of the model keeps
that behaviour, as the program has it. Then a corrected definition, next to
it, has the evidently intended property proved.

- `load` of a `Guild`, `User`, `Channel` or `Role` always raises, because its
  test is inverted (`DiscordLaws.DiscordLoadFails`). Corrected:
  `DiscordLaws.LoadChecked`, with `DiscordLaws.LoadCheckedRestores`.
- `get` right after `set` of a `Guild` returns the id rather than the guild
  (`DiscordLaws.GuildGetAfterSet`). Corrected: `DiscordLaws.GetGuildOnce`,
  with `DiscordLaws.GuildOnceAfterSet`.
- In the current revision, a configuration holding a `Dict` cannot load the
  file it saved: the field saves a list of pairs, and its `set` accepts only a
  dict (`DictLaws.SavedDictNotSettable`, `Configs.DictBlocksReload`).
  Corrected: `RoundTrip.SetReadingSaved`, with `RoundTrip.SetReadsSaved`.
- A legacy `Dict` accepts a pair in `check_value`, then raises in `set`
  (`DictLaws.LegacyPairNotStored`). Corrected: `DictLaws.SetLegacyPair`, with
  `DictLaws.LegacyPairStored` and `DictLaws.LegacyPairOtherwise`.
- A legacy `List` of `Int` or `Color` rejects every list with `TypeError`,
  because its check hands the whole list to the element check
  (`ListLaws.ListCheckLegacy`). Corrected: `ListLaws.CheckLegacyPerItem`, with
  `ListLaws.LegacyPerItemAccepts`.
- `List.load` appends to the existing elements rather than replacing them
  (`ListLaws.LoadItemsAppends`). Corrected: `RoundTrip.LoadReplacing`, with
  `RoundTrip.LoadReplacingRestores`.
- `load_module` of a name already registered skips the version check, so a
  dependency on a version range is satisfied by any version loaded earlier
  (`ModuleLaws.AlreadyRegistered`). Corrected: `ModuleLaws.LoadChecked`, with
  `ModuleLaws.CheckedHonoursRange` and `ModuleLaws.CheckedDepsHonoured`.
- Loading a metamodule at the top level looks `"enabled_modules"` up in the
  module registry instead of the configuration
  (`ModuleLaws.TopLevelMetamodule`). Corrected: `ModuleLaws.LoadChecked`, with
  `ModuleLaws.CheckedMetamodule`.
- The loader raises exception classes that `errors` does not define, so
  Python raises `AttributeError` instead (`ModuleLaws.VersionMismatch`).
  Corrected: `ModuleLaws.LoadChecked` raises the declared
  `IncompatibleModuleError` (`ModuleLaws.CheckedMismatch`).
- Leading whitespace in a command makes the subcommand reappear among the
  arguments (`CommandLaws.ParseLeadingSpace`). Corrected:
  `CommandLaws.ParseStripped`, with `CommandLaws.StrippedPlainWords`.
- A colon inside an IRC message's text cuts off everything before it
  (`Irc.ColonInText`). Corrected: `Irc.TrailingBytes`, with
  `Irc.TrailingIsText`.
- On a ready client, `config["authorized_users"]` holds user objects, not
  ids, so `user.id in user_list` refuses a user the list names
  (`Authorisation.ListedUserRefused`). Corrected:
  `Authorisation.AuthorizedById`, with `Authorisation.ListedUserAdmitted` and
  `Authorisation.ByIdAdmitsMore`.

These are properties of the code as written and of the corrected
definitions.

## Model

| member | source | states |
|---|---|---|
| Modules.InfosOf | src/bot_base/modules.py:42-61 | `infos` succeeds exactly when the module's directory exists and holds `infos.toml`; a missing directory fails with `AttributeError` (the code raises `errors.ModuleNotFoundError`, which is not declared); a directory without the file fails with `IncompatibleModuleError` |
| Modules.HasKeys | src/bot_base/modules.py:63-69 | the loop over the required keys answers true exactly when every listed key is present |
| Modules.HasAllInfos | src/bot_base/modules.py:63-69 | defines `has_all_infos`: the loop over `MINIMAL_INFOS` (line 13) answers false at the first key missing from the metadata, true when none is |
| Modules.HasAllInfosIff | src/bot_base/modules.py:13 | `has_all_infos` holds exactly when both "version" and "bot_version" are present (never called by the loader) |
| Modules.Version | src/bot_base/modules.py:37-40 | defines `Module.version`, `infos.get("version")`: the "version" entry, or `None` when the metadata has none |
| Modules.TruthyInfo | src/bot_base/modules.py:77-80 | defines the truth of a metadata value, as lines 91 and 127 test `is_metamodule`: an empty string, an empty table, `False` and 0 are false, every other value true |
| Modules.IsMetamodule | src/bot_base/modules.py:77-80 | a module without a "metamodule" entry is not a metamodule; with one, it is a metamodule exactly when the entry is truthy |
| Modules.DepsOf | src/bot_base/modules.py:84-87 | one dependency per table entry, with that entry's name and range, in table order |
| Modules.Deps | src/bot_base/modules.py:82-87 | no "dependencies" entry gives no dependencies; a table gives one dependency per entry, in order, with the same name and range; any other value fails with `AttributeError` (it has no `items`) |
| Modules.Insert | src/bot_base/modules.py:126-128 | `dict.update` with one key: the key is present afterwards and no other key is added |
| Modules.DepsMeasure | src/bot_base/modules.py:123-124 | under an acyclic ranking of the metadata, every dependency ranks strictly below its dependent, so the recursion of `load_module` ends |
| Modules.Registered | src/bot_base/modules.py:126-132 | defines the registries once the dependencies are loaded: the name is added to `modules`; a module that is not a metamodule is added to `dispatch_modules` and the load passes; a metamodule loaded with a range passes undispatched; one loaded with no range reaches line 130, whose `self.modules["enabled_modules"]` raises `KeyError` unless a module of that name is registered, and `TypeError` (`in` on a module object) when one is |
| Modules.RegisteredSound | src/bot_base/modules.py:125-128 | registering a module that has metadata keeps the registries sound: every registered module has metadata, and only registered non-metamodules are dispatched to |
| Modules.ModuleManager.constructor | src/bot_base/modules.py:101-104 | both registries start empty; the loader keeps the modules folder, the range test and the enabled list it was given |
| Modules.LoadModuleF | src/bot_base/modules.py:117-132 | defines `load_module(name, version)` on the two registries: a registered name passes at once; a version outside the range raises `AttributeError`; the dependencies load with their ranges; the module is registered, and dispatched to unless a metamodule, which with no range then fails on line 130 |
| Modules.ModuleManager.LoadModule | src/bot_base/modules.py:117-132 | the outcome and the two registries after `load_module(name, version)` are those `LoadModuleF` gives for the registries before, and the registries stay sound |
| Modules.LoadDepsF | src/bot_base/modules.py:123-124 | defines the dependency loop: each dependency loaded with its range, in order, stopping at the first that raises |
| Modules.ModuleManager.LoadDeps | src/bot_base/modules.py:123-124 | the dependency loop loads each dependency with its range, in order, and stops at the first that raises; its result is `LoadDepsF` |
| Modules.LoadAllF | src/bot_base/modules.py:134-136 | defines `load_modules`: `load_module` of every enabled name with no range, in order, stopping at the first that raises |
| Modules.ModuleManager.LoadModules | src/bot_base/modules.py:134-136 | `load_modules` loads every enabled name with no range, in order, stopping at the first that raises; its result is `LoadAllF` |
| Modules.ModuleManager.Iter | src/bot_base/modules.py:138-139 | iteration yields only registered modules that have metadata and are not metamodules |
| Modules.LoadDepsFailsFrom | src/bot_base/modules.py:123-124 | once a prefix of the dependency loop raises, the whole loop returns that prefix's result |
| Modules.LoadAllFailsFrom | src/bot_base/modules.py:135-136 | once a prefix of `load_modules` raises, the whole loop returns that prefix's result |
| ModuleLaws.RegisteredGrows | src/bot_base/modules.py:125-128 | registering a module only adds to the registries |
| ModuleLaws.LoadModuleGrows | src/bot_base/modules.py:117-132 | `load_module` only adds keys at the end of either registry and keeps them sound; everything it adds is the module itself or ranks below it |
| ModuleLaws.LoadDepsGrows | src/bot_base/modules.py:123-124 | the dependency loop only adds, keeps the registries sound, and adds only modules ranked below its bound |
| ModuleLaws.NotReentrant | src/bot_base/modules.py:120-124 | loading the dependencies of a module that is not yet registered never registers the module itself |
| ModuleLaws.AlreadyRegistered | src/bot_base/modules.py:118-119 | `load_module` of a registered name returns at once and changes nothing |
| ModuleLaws.VersionMismatch | src/bot_base/modules.py:121-122 | a version outside the range asked for raises (`AttributeError`, since `errors.MissingDependency` is not declared) before any dependency is loaded, and nothing changes |
| ModuleLaws.PassRegisters | src/bot_base/modules.py:117-126 | a module that `load_module` passes on is registered |
| ModuleLaws.DepsRegistered | src/bot_base/modules.py:123-124 | when the dependency loop passes, every dependency is registered |
| ModuleLaws.FailedDependencyUnregistered | src/bot_base/modules.py:121-126 | a module loaded as a dependency (with a range) that raises is not registered |
| ModuleLaws.RegisteredAfterDeps | src/bot_base/modules.py:123-132 | after its dependencies load, a new module is registered last, after all of them; it is dispatched to exactly when it is not a metamodule; the load passes exactly when it is not a metamodule or was loaded with a range |
| ModuleLaws.RegisteredShape | src/bot_base/modules.py:126-130 | registering a new name appends it to the modules registry and dispatches it exactly when it is not a metamodule |
| ModuleLaws.DependencyFails | src/bot_base/modules.py:123-126 | when dependency `j` raises, the load raises, neither the dependent nor dependency `j` is registered, and the dependencies before `j` stay registered |
| ModuleLaws.TopLevelMetamodule | src/bot_base/modules.py:130-132 | a metamodule loaded with no range is registered and then raises: line 130 looks "enabled_modules" up in the module registry, not in the configuration, giving `KeyError` (or `TypeError` when a module of that name exists), so the configuration is never updated |
| ModuleLaws.LoadAllGrows | src/bot_base/modules.py:134-136 | `load_modules` only adds to the registries and keeps them sound |
| ModuleLaws.LoadAllRegisters | src/bot_base/modules.py:134-136 | when `load_modules` passes, every enabled module is registered |
| ModuleLaws.LoadChecked | src/bot_base/modules.py:117-132 | defines a corrected `load_module`: it corrects lines 118-119 to check the range even for a registered name, line 122 to raise the declared `IncompatibleModuleError`, and line 130 to read `self.config["enabled_modules"]` |
| ModuleLaws.CheckedHonoursRange | src/bot_base/modules.py:118-122 | corrected loader (`LoadChecked`: the range is checked whether or not the name is already registered): a load with a range passes only for a module with metadata whose version lies in that range |
| ModuleLaws.CheckedDepsHonoured | src/bot_base/modules.py:123-124 | with the corrected loader, a dependency loop that passes has found every dependency in the range its dependent asks for |
| ModuleLaws.CheckedMismatch | src/bot_base/modules.py:121-122 | the corrected loader raises the declared `IncompatibleModuleError` for a module outside the range, registered or not, and changes nothing |
| ModuleLaws.CheckedMetamodule | src/bot_base/modules.py:125-132 | with "enabled_modules" read from the configuration, a metamodule loaded with no range passes once its dependencies pass: it is registered, added to the enabled list, and not dispatched to |
| PyStrings.LStripChars | modules/base/Base.py:133 | `s.lstrip(chars)` returns a suffix of `s`: every dropped character occurs in `chars` (a set, not a prefix), and the result is empty or starts with a character outside `chars` |
| PyStrings.RStripChars | modules/base/Base.py:152 | `s.rstrip(chars)` returns a prefix of `s`: every dropped character occurs in `chars`, and the result is empty or ends with a character outside `chars` |
| PyStrings.StripChars | modules/base/Base.py:152 | defines `s.strip(chars)`: `lstrip(chars)`, then `rstrip(chars)` |
| PyStrings.LStripSpace | modules/base/Base.py:135 | `s.lstrip()` returns a suffix of `s` whose dropped characters are all whitespace, and which is empty or starts with a non-space |
| PyStrings.TakeWord | modules/base/Base.py:128 | the longest whitespace-free prefix: it is a prefix, has no whitespace, and is followed by whitespace or the end |
| PyStrings.Words | modules/base/Base.py:125-128 | defines `content.split()`: the maximal runs of non-whitespace characters, in order |
| PyStrings.WordsAreWords | modules/base/Base.py:125-128 | every word `split()` returns is non-empty and free of whitespace |
| PyStrings.WordsEmptyIff | modules/base/Base.py:125-126 | `split()` finds no word exactly when the text is empty or all whitespace |
| PyStrings.FirstWord | modules/base/Base.py:128 | the first word of `split()` is the text after the leading whitespace, up to the next whitespace |
| PyStrings.FindFirst | modules/base/Base.py:137 | the index found is an occurrence of the separator |
| PyStrings.FindFirstIsFirst | modules/base/Base.py:137 | the index found is the leftmost occurrence, and none is found only when there is none |
| PyStrings.SplitSep | modules/base/Base.py:137 | `s.split(sep)` has at least one piece |
| PyStrings.Join | modules/base/Base.py:135 | defines `sep.join(pieces)`: the pieces with `sep` between each two |
| PyStrings.SplitJoin | modules/base/Base.py:137 | joining the pieces of `s.split(sep)` with `sep` gives `s` back |
| PyStrings.Replace | modules/base/Base.py:135 | defines `s.replace(pat, rep)` for a non-empty pattern as `rep.join(s.split(pat))`; line 135 uses it to double each quote |
| PyStrings.Inner | modules/base/Base.py:146 | `s[1:-1]` drops the first and last character, and is empty for text shorter than two characters |
| Commands.PrefixTests | modules/base/Base.py:145-156 | the three token tests are `startswith('"')`, `startswith("--")` and `startswith("-")` |
| Commands.Pieces | modules/base/Base.py:137-139 | defines the pieces of lines 137 and 139: each chunk between ` "` separators split again at `" `, all chunks' pieces in order |
| Commands.PieceTokens | modules/base/Base.py:139 | a piece gives only non-empty tokens |
| Commands.TokensOf | modules/base/Base.py:139-141 | the flattened tokens are all non-empty; the pass raises exactly when some piece is empty (`item[0]`), and then raises `IndexError` |
| Commands.Tokens | modules/base/Base.py:133-141 | defines the token list the loop walks: the content after `lstrip(sub_command)` and `lstrip()`, with quotes doubled, cut into pieces, each piece kept whole when it starts with a quote and split at whitespace otherwise, flattened; an empty piece raises `IndexError` |
| Commands.OptOf | modules/base/Base.py:149-152 | defines the option pair the loop appends: the token with its leading dashes stripped (`lstrip("-")`), and the value with its surrounding quotes stripped (`strip("\"")`), or `None` |
| Commands.Flags | modules/base/Base.py:166 | a flag cluster gives one valueless option per character, in order |
| Commands.ScanAt | modules/base/Base.py:143-169 | defines what the loop adds from index `i` on: a token starting with a quote loses its first and last character, a `--` token goes to `ScanLongAt`, another `-` token to `ScanShortAt`, and any other token is positional |
| Commands.ScanLongAt | modules/base/Base.py:147-155 | defines the `--name` branch: as the last token it gives `(name, None)` and ends the loop; a next token not starting with `-` is its value and is skipped; otherwise it gives `(name, None)` and the loop goes on at the next token |
| Commands.ScanShortAt | modules/base/Base.py:156-166 | defines the `-` branch: a two-character `-x` as the last token ends the loop and adds nothing, and otherwise pairs as `--name` does; any other dash token gives `(c, None)` for each character after the dash |
| Commands.Scan | modules/base/Base.py:143-169 | defines the scan of the `while` loop over all the tokens, from the first |
| Commands.ScanTokens | modules/base/Base.py:143-169 | the `while` loop over the tokens appends to `args_` and `kwargs` exactly what the scan `Scan` of the tokens gives |
| Commands.ScanAtSuffix | modules/base/Base.py:143-169 | the scan from index `i` is the scan of the tokens from `i` on |
| Commands.ScanAtDrop | modules/base/Base.py:143-169 | dropping the first token shifts the scan by one index |
| Commands.ScanQuoted | modules/base/Base.py:145-146 | a quoted token becomes a positional argument without its first and last character, and the scan goes on with the next token |
| Commands.ScanLongLast | modules/base/Base.py:148-150 | `--name` as the last token gives `(name, None)` and ends the scan |
| Commands.ScanLongValue | modules/base/Base.py:151-153 | `--name v` with `v` not starting with `-` gives `(name, v)` and skips `v` |
| Commands.ScanLongAlone | modules/base/Base.py:154-155 | `--name` before a dashed token gives `(name, None)` and the scan goes on at that token |
| Commands.ScanShortLast | modules/base/Base.py:157-159 | a two-character `-x` as the last token ends the scan and adds nothing |
| Commands.ScanShortValue | modules/base/Base.py:160-162 | `-x v` with `v` not starting with `-` gives `(x, v)` and skips `v` |
| Commands.ScanShortAlone | modules/base/Base.py:163-164 | `-x` before a dashed token gives `(x, None)` |
| Commands.ScanCluster | modules/base/Base.py:165-166 | a longer dash token `-xyz` gives one valueless option per character after the dash |
| Commands.ScanPlain | modules/base/Base.py:167-168 | any other token is appended to the positional arguments |
| Commands.ParseCommand | modules/base/Base.py:113-170 | defines `_parse_command_content`: blank content gives `("", [], [])`, a single word is the subcommand and the only argument, otherwise the tokens of the rest after `lstrip(sub_command)` are scanned |
| Commands.ParseCommandContent | modules/base/Base.py:113-170 | `_parse_command_content` returns exactly `ParseCommand(content)`: blank content gives `("", [], [])`, one word is the subcommand and the only argument, more words scan the tokens of the rest |
| CommandLaws.ParseBlankIff | modules/base/Base.py:125-126 | the parse is `("", [], [])` exactly when the content is blank |
| CommandLaws.ParseSubcommand | modules/base/Base.py:128-129 | otherwise the subcommand is the first word (the text after leading whitespace up to the next whitespace) and is also the first positional argument |
| CommandLaws.SubIsFirstWord | modules/base/Base.py:128-129 | the subcommand and the first argument are the first word, for one word and for several |
| CommandLaws.ParseOneWord | modules/base/Base.py:128-131 | a single word is the whole result: subcommand, sole argument, no options |
| CommandLaws.ParseRaises | modules/base/Base.py:139 | the parse raises only for content of several words, and only `IndexError` |
| CommandLaws.ParseTokensErr | modules/base/Base.py:139 | a raising token pass makes the whole parse raise the same error |
| CommandLaws.ScanRender | modules/base/Base.py:144-169 | round trip: rendering arguments as quoted groups and options as `--name value` tokens, then scanning, gives the same arguments and options back |
| CommandLaws.ScanRenderArgs | modules/base/Base.py:145-146 | the quoted groups scan back to the positional arguments before the options |
| CommandLaws.RenderOptsHead | modules/base/Base.py:147 | rendered options start with `--`, so none is taken as the value of the option before it |
| CommandLaws.ScanRenderOpts | modules/base/Base.py:147-155 | rendered options scan back to the same options and no argument |
| CommandLaws.ScanRenderOne | modules/base/Base.py:147-155 | one rendered option before the others scans back to itself |
| CommandLaws.ScanValued | modules/base/Base.py:151-153 | `--name value` scans to `(name, value)` |
| CommandLaws.ScanPair | modules/base/Base.py:151-153 | a long option followed by a token not starting with `-` takes it as its value |
| CommandLaws.OptOfRendered | modules/base/Base.py:152 | `lstrip("-")` and `strip('"')` give back a name without a leading dash and a value without end quotes |
| CommandLaws.ScanBare | modules/base/Base.py:148-155 | `--name` at the end or before a dashed token scans to `(name, None)` |
| CommandLaws.StripDashes | modules/base/Base.py:149 | `("--" + name).lstrip("-")` is `name` when `name` has no leading dash |
| CommandLaws.KeepQuotes | modules/base/Base.py:152 | `v.strip('"')` is `v` when neither end is a quote |
| CommandLaws.ScanPlainTokens | modules/base/Base.py:167-168 | tokens neither quoted nor dashed are the positional arguments, in order, and give no option |
| CommandLaws.ShortLikeLong | modules/base/Base.py:147-164 | `-x` followed by other tokens scans as `--x` does; as the last token `-x` is dropped where `--x` gives `(x, None)` |
| CommandLaws.DashNames | modules/base/Base.py:149-161 | both `-x` and `--x` name the option `x` |
| CommandLaws.ShortPair | modules/base/Base.py:151-164 | `-x` and `--x` before the same non-empty tokens scan alike |
| CommandLaws.PairLikeLong | modules/base/Base.py:151-164 | a two-character short option and a long option of the same name scan alike before the same tokens |
| CommandLaws.ScanFlagCluster | modules/base/Base.py:166 | `-xyz` gives `(x, None), (y, None), (z, None)` before the options of what follows, and no argument |
| CommandLaws.SplitNoQuote | modules/base/Base.py:137 | text without quotes split at a separator holding a quote is one piece |
| CommandLaws.TokensUnquoted | modules/base/Base.py:133-141 | without quotes the tokens are the words after the subcommand; an empty rest is an empty piece, and the pass raises `IndexError` |
| CommandLaws.TokensOne | modules/base/Base.py:139-141 | a single unquoted piece gives its words |
| CommandLaws.PiecesOne | modules/base/Base.py:137 | one chunk that does not split is one piece |
| CommandLaws.LStripPrefix | modules/base/Base.py:133 | `lstrip(chars)` removes a leading run of `chars` when the next character is not one of them |
| CommandLaws.WordsLStrip | modules/base/Base.py:135 | leading whitespace does not change the words |
| CommandLaws.AfterSkipsSub | modules/base/Base.py:133-135 | with no leading whitespace, the text after `lstrip(sub)` holds exactly the remaining words |
| CommandLaws.WordsHead | modules/base/Base.py:128 | without leading whitespace the first word is the first run of non-whitespace characters |
| CommandLaws.StripSub | modules/base/Base.py:133 | `content.lstrip(sub)` for the first word removes exactly that word |
| CommandLaws.AfterKeepsSub | modules/base/Base.py:133-135 | with leading whitespace `lstrip(sub)` removes nothing, so the rest still holds every word, the subcommand too |
| CommandLaws.ParsePlainWords | modules/base/Base.py:113-170 | plain words, without quotes, dashes or leading whitespace, parse to the first word as subcommand and all words as the arguments |
| CommandLaws.PlainRest | modules/base/Base.py:133-141 | for such text the tokens after the subcommand are the other words, none quoted or dashed |
| CommandLaws.TailPlain | modules/base/Base.py:145-168 | the words after the first of quote-free, dash-free words are neither quoted nor dashed |
| CommandLaws.ParseTokens | modules/base/Base.py:131-170 | the parse of several words is the subcommand, then the subcommand and the scanned arguments, then the scanned options |
| CommandLaws.ParseLeadingSpace | modules/base/Base.py:133 | the same words after leading whitespace repeat the subcommand among the arguments, because `lstrip(sub)` strips nothing there |
| CommandLaws.ParseStripped | modules/base/Base.py:133 | defines a corrected parse: it corrects line 133, `content.lstrip(sub_command)`, which keeps the subcommand after leading whitespace, by stripping that whitespace first; the rest is `ParseCommand` |
| CommandLaws.StrippedPlainWords | modules/base/Base.py:125-135 | corrected parse (`ParseStripped`, leading whitespace stripped before `lstrip(sub)`): plain words parse to the first word as subcommand and the words themselves as the arguments, whatever whitespace leads them, so the subcommand appears once |
| CommandLaws.WordHasNoQuote | modules/base/Base.py:139 | a word of quote-free text does not start with a quote |
| CommandLaws.TakeWordNoQuote | modules/base/Base.py:128 | the first word of quote-free text is quote-free |
| CommandLaws.WordsNoQuote | modules/base/Base.py:125-141 | the words of quote-free text are quote-free |
| Authorisation.UsersOf | modules/base/Base.py:77-78 | defines the user list `auth` searches: the one given, else `self.config["authorized_users"] + self.client.config['admin_users']` |
| Authorisation.RolesOf | modules/base/Base.py:81-82 | defines the role list `auth` searches: the one given, else `self.config["authorized_roles"] + self.client.config['admin_roles']` |
| Authorisation.GuildsOf | modules/base/Base.py:83-86 | defines the guilds `auth` searches: the one given alone, else `self.client.guilds` |
| Authorisation.Authorized | modules/base/Base.py:75-92 | defines `auth`'s decision: everyone is allowed, or the user's id equals an item of the user list, or a searched guild the user belongs to gives the user a listed role |
| Authorisation.Auth | modules/base/Base.py:75-92 | `auth` returns true exactly when everyone is allowed, or the user's id equals an item of the user list (the given one, or the module's "authorized_users" values plus the bot's admins), or some searched guild has the user as a member holding a listed role |
| Authorisation.CachedUserShown | src/config/config_types/discord_types/user.py:62-107 | a `User` field set to the id of a user a ready client knows reads back as the user object, not the id |
| Authorisation.ListedUserRefused | modules/base/Base.py:77-79 | setting "authorized_users" (registered at lines 39-40 as a `List` of `User`) to `[u]` on a ready client that knows `u` makes `config["authorized_users"]` the user object, so `user.id in user_list` is false and `auth` refuses the listed user when nothing else admits them |
| Authorisation.AuthorizedById | modules/base/Base.py:77-79 | defines a corrected `auth`: it corrects line 79, `user.id in user_list`, to compare the user's id with the id of each listed item, whether that item is an id or a user object; the rest is `Authorized` |
| Authorisation.ByIdAdmitsMore | modules/base/Base.py:77-79 | corrected test (`AuthorizedById`, the user list compared by id): it admits every user the test as written admits |
| Authorisation.UserElemId | src/config/config_types/discord_types/user.py:62-107 | on a client whose lookups return the object with the id asked for, a `User` field set to an id reads back as something whose id is that id |
| Authorisation.UsersReadBack | src/config/config_types/list.py:57-97 | "authorized_users" set to a list of ids reads back as one value per id, in order, each with that id |
| Authorisation.ListedUserAdmitted | modules/base/Base.py:77-79 | with the user list compared by id, every user "authorized_users" lists is admitted |
| Emojis.DigitChar | src/utils/emojis.py:37 | the character of digit `d` is a decimal digit whose code is `'0' + d` |
| Emojis.DigitValue | src/utils/emojis.py:37 | `int(c)` of a digit character is below ten and gives the character back |
| Emojis.Digits | src/utils/emojis.py:31 | the decimal text of a natural number is non-empty, all digits, with no leading zero |
| Emojis.DecimalText | src/utils/emojis.py:31 | `str(i)` of an integer holds only digits and `-`, and starts with `-` exactly when `i` is negative |
| Emojis.Image | src/utils/emojis.py:32-37 | a digit becomes `NUMBERS[d]`, which is the digit followed by the combining keycap; `-` becomes `MINUS`; `.` stays |
| Emojis.Emoji | src/utils/emojis.py:12-38 | defines what `write_with_number(i)` returns: the images of the characters of `str(i)`, in order |
| Emojis.WriteWithNumber | src/utils/emojis.py:12-38 | the loop over `str(i)` returns `Emoji(i)`, the images of the characters in order |
| Emojis.Images | src/utils/emojis.py:30-38 | defines the string the loop builds from a text: each character's image appended, in order |
| Emojis.ImagesAppend | src/utils/emojis.py:30-38 | the images of a concatenation are the concatenated images |
| Emojis.DecodeImages | src/utils/emojis.py:30-38 | round trip: reading the images back gives the decimal text |
| Emojis.ValueDigits | src/utils/emojis.py:31 | the decimal digits of `n` read back as `n` |
| Emojis.ParseDecimalText | src/utils/emojis.py:31 | `int(str(i)) == i` |
| Emojis.EmojiInjective | src/utils/emojis.py:12-38 | two integers have the same emoji exactly when they are equal |
| Emojis.EmojiShape | src/utils/emojis.py:34-37 | the emoji of a negative number is the minus sign and then one keycap per digit of its magnitude; a non-negative number has only the keycaps |
| Emojis.Examples | src/utils/emojis.py:18-21 | the docstring examples for 23 and -23 |
| Utf8.EncodeChar | src/backends/IRC/message.py:10 | one scalar value encodes to one to four bytes, and to one byte exactly when it is ASCII |
| Utf8.DecodeFirst | src/backends/IRC/message.py:10 | strict decoding reads one to four bytes at the head, or raises `UnicodeDecodeError` (stray continuation, bad lead byte, truncation, overlong form, surrogate, value above U+10FFFF) |
| Utf8.Decode | src/backends/IRC/message.py:10 | `bytes.decode()` fails only with `UnicodeDecodeError` |
| Utf8.DecodeFirstEncodeChar | src/backends/IRC/message.py:10 | the head of an encoding decodes to its character, using the bytes of its encoding |
| Utf8.RoundTrip2 | src/backends/IRC/message.py:10 | a two-byte character decodes back from its encoding |
| Utf8.RoundTrip3 | src/backends/IRC/message.py:10 | a three-byte character decodes back from its encoding |
| Utf8.RoundTrip4 | src/backends/IRC/message.py:10 | a four-byte character decodes back from its encoding |
| Utf8.DecodeEncode | src/backends/IRC/message.py:10 | round trip: decoding the encoding of any text gives the text back |
| Utf8.EncodeDecodeFirst | src/backends/IRC/message.py:10 | what decoding reads at the head is exactly the encoding of the character it returns |
| Utf8.EncodeDecode | src/backends/IRC/message.py:10 | round trip: bytes that decode are the encoding of what they decode to |
| Utf8.DecodeIff | src/backends/IRC/message.py:10 | bytes decode exactly when they are the encoding of some text |
| Utf8.AsciiChars | src/backends/IRC/message.py:10 | ASCII bytes read as the characters with the same codes |
| Utf8.DecodeAscii | src/backends/IRC/message.py:10 | ASCII bytes decode to the characters with the same codes |
| Irc.Split | src/backends/IRC/message.py:9 | `bytes.split(sep)` has at least one piece |
| Irc.JoinSplit | src/backends/IRC/message.py:9 | round trip: joining the pieces of a split with the separator gives the bytes back |
| Irc.SplitFree | src/backends/IRC/message.py:9 | no piece of a split holds the separator |
| Irc.SplitCons | src/backends/IRC/message.py:9 | a leading separator starts a new piece; any other leading byte joins the first piece |
| Irc.SplitPrefix | src/backends/IRC/message.py:9 | separator-free bytes in front join the first piece |
| Irc.SplitAt | src/backends/IRC/message.py:11 | separator-free bytes before a separator are the first piece, and the rest splits on |
| Irc.SplitWhole | src/backends/IRC/message.py:9 | separator-free bytes are a single piece |
| Irc.LastSplitAppend | src/backends/IRC/message.py:9 | the last piece after a separator is the last piece of what follows it |
| Irc.SplitJoin | src/backends/IRC/message.py:9 | round trip: splitting separator-free pieces joined at the separator gives the pieces back |
| Irc.JoinLast | src/backends/IRC/message.py:9 | a join of several pieces ends with the separator and the last piece |
| Irc.Drop1 | src/backends/IRC/message.py:14 | `b[1:]` is `b` without its first byte, and empty for empty bytes |
| Irc.Channel.constructor | src/backends/IRC/message.py:15 | a new channel has no id |
| Irc.Decoded | src/backends/IRC/channel.py:12-13 | defines the id `from_irc_id` stores: the decoded text, or none when `decode()` raises |
| Irc.Channel.FromIrcId | src/backends/IRC/channel.py:12-13 | `from_irc_id` sets `id` to the decoded bytes, or raises `UnicodeDecodeError` and leaves `id` unchanged |
| Irc.Message.constructor | src/backends/IRC/message.py:6-7 | a new message has no content, channel or author |
| Irc.ContentBytes | src/backends/IRC/message.py:9 | defines `data.split(b":")[-1]`, the bytes after the last colon |
| Irc.ContentText | src/backends/IRC/message.py:10 | defines `message.decode()`: the content, or `UnicodeDecodeError` |
| Irc.Target | src/backends/IRC/message.py:11 | defines `data.split(b" ")[2]`, or the `IndexError` of a line with fewer than three fields |
| Irc.SenderNick | src/backends/IRC/message.py:14 | defines `data.split(b" ")[0][1:].split(b"!")[0]`, the sender's nick |
| Irc.ChannelBytes | src/backends/IRC/message.py:11-14 | defines the bytes given to `from_irc_id`: the target, unless it decodes to the bot's nick, when they are the sender's nick; a target that does not decode raises `UnicodeDecodeError` |
| Irc.FromIrcOutcome | src/backends/IRC/message.py:7-17 | defines how `from_irc` ends: `UnicodeDecodeError` from the content, then the `IndexError` or `UnicodeDecodeError` of the target, then that of `from_irc_id`, or normally |
| Irc.Message.FromIrc | src/backends/IRC/message.py:7-17 | `from_irc` ends as `FromIrcOutcome` says; the content is set once the last colon-separated piece decodes; the channel is a fresh object holding the decoded target (or the sender's nick when the target is the bot's own nick); the author is set only when nothing raised; a field set before a step raised stays set |
| Irc.ContentAfterLastColon | src/backends/IRC/message.py:9 | the content holds no colon; it is the whole line when the line has no colon, else exactly the bytes after the last colon |
| Irc.LineTarget | src/backends/IRC/message.py:11 | in `:prefix COMMAND target :text` the third space-separated field is the target, and the first is the prefix with its colon |
| Irc.LineHead | src/backends/IRC/message.py:9 | a line is its colon, its head and then the colon before the text |
| Irc.HeadFree | src/backends/IRC/message.py:9 | the head of a line is colon-free when its prefix, command and target are |
| Irc.LineContent | src/backends/IRC/message.py:9-10 | the content is the last colon-separated piece of the text, and the whole text when the text has no colon |
| Irc.PrivateQuery | src/backends/IRC/message.py:13-14 | a message addressed to the bot's nick is answered to the sender, the prefix up to its first `!` |
| Irc.ChannelTarget | src/backends/IRC/message.py:11-16 | any other target is the channel |
| Irc.ShortLine | src/backends/IRC/message.py:11 | a line with fewer than three space-separated fields raises `IndexError` once the content is set |
| Irc.ColonInText | src/backends/IRC/message.py:9 | a colon inside the text loses everything before it: only what follows the last colon is the content |
| Irc.SampleLine | src/backends/IRC/message.py:8 | the sample line of the comment gives the content "Pouet" and the channel "#general" |
| Irc.SampleText | src/backends/IRC/message.py:8 | the sample text and channel decode as ASCII |
| Irc.TrailingBytes | src/backends/IRC/message.py:9 | defines a corrected content: it corrects line 9, `data.split(b":")[-1]`, to everything after the second colon of the line (`data.split(b":", 2)[2]`), or the last piece when there is none |
| Irc.TrailingIsText | src/backends/IRC/message.py:9-10 | corrected content (`TrailingBytes`, the bytes after the colon that opens the trailing parameter): for a `:prefix COMMAND target :text` line whose prefix, command and target hold no colon, the content is the whole text, colons included |
| Configs.NamesOf | src/config/base.py:83 | the names of the file's lines, one per line and in line order |
| Configs.FreshSlots | src/config/base.py:44-46 | the fields a configuration has when it registered the same classes under the same names and did nothing else; they keep the classes and fit them |
| Configs.SetOne | src/config/base.py:63-67 | defines one iteration of the bulk `set`: `self.fields[k].set(v)` for a registered name changes only that field; an unknown name raises `KeyError`, which the current revision's `except KeyError` skips together with any `KeyError` the field raises, while the legacy revision propagates it |
| Configs.SetOneFits | src/config/base.py:62-67 | one iteration of the bulk `set` keeps every name, its field class, and a state of that class's shape |
| Configs.SetAllFits | src/config/base.py:62-67 | the whole bulk `set` keeps every name, its field class, and a state of that class's shape |
| Configs.Config.constructor | src/config/base.py:18-29 | a new configuration has no option registered |
| Configs.Config.Register | src/config/base.py:31-46 | `register` replaces any field of that name with a freshly built one, which keeps its place in the order, or adds it at the end; when the field class's constructor raises, nothing changes and the exception propagates |
| Configs.SetAll | src/config/base.py:48-67 | defines the bulk `set`: the settings in order, stopping at the first exception, the fields set before it keeping their new state |
| Configs.Config.Set | src/config/base.py:48-67 | the loop over the settings leaves the fields, and returns the exception, that the specification `SetAll` gives: each setting in order, stopping at the first exception, the earlier ones staying applied; unknown names are skipped in the current revision and raise `KeyError` in the legacy one (config/base.py:70-71) |
| Configs.Config.SetField | src/config/base.py:63-67 | one iteration of `set`: an unknown name, or a field that raises `KeyError`, is skipped by the current revision; on success only that field changes |
| Configs.SaveAll | src/config/base.py:69-83 | defines `save`'s lines: every `to_save` in registration order runs first, the first exception is raised, and a `None` value gets no line |
| Configs.Written | src/config/base.py:82-83 | defines the file `save` leaves: `open(self.path, 'w')` empties it before the dict comprehension runs, so it holds the lines `SaveAll` computes, or nothing when a `to_save` raised |
| Configs.Config.Save | src/config/base.py:69-83 | the loop writes exactly `SaveAll` (one line per registered name in order, none for a `None` value), or raises the first `to_save` exception and leaves the file empty |
| Configs.Config.Load | src/config/base.py:85-109 | `load` applies the file through `set`; the current revision skips a missing file and then saves, unless `set` raised; the legacy one (config/base.py:110-111) raises `FileNotFoundError` for a missing file and never saves |
| Configs.Config.GetItem | src/config/base.py:111-126 | `config[name]` is the named field's `get()`, whose state change it keeps; an unknown name raises `KeyError` and changes nothing |
| Configs.SetAllFailsFrom | src/config/base.py:62-67 | once the bulk `set` has raised, the remaining settings are never applied |
| Configs.SaveAllFailsFrom | src/config/base.py:83 | once a `to_save` has raised, the rest of the dict comprehension makes no difference |
| Configs.SetOneUnknown | src/config/base.py:65-67 | a setting for a name never registered is skipped by the current revision and raises `KeyError` in the legacy one; no field changes |
| Configs.SetOneKnown | src/config/base.py:64 | a setting for a registered name runs that field's `set`: on success only that field changes; on an exception nothing changes, and the exception propagates exactly unless it is a `KeyError` in the current revision |
| Configs.SetAllFailAt | src/config/base.py:62-67 | `set` is not atomic: when it raises, it raised at one setting `j`, every setting before `j` went through and stays applied |
| Configs.SaveAllOk | src/config/base.py:83 | `save` raises exactly when some registered field's `to_save` raises |
| Configs.SaveAllLines | src/config/base.py:83 | every line written is a registered name with the value its field's `to_save` returns, never `None` |
| Configs.SaveAllComplete | src/config/base.py:83 | every registered field whose `to_save` is not `None` gets a line |
| Configs.SaveAllDistinct | src/config/base.py:83 | no name gets two lines |
| Configs.ReloadPrefix | src/config/base.py:104-106 | the lines written for the first `i` names, applied to fresh fields, pass and restore exactly those names |
| Configs.SaveAllSnoc | src/config/base.py:83 | saving one more name adds its line, unless its value is `None` |
| Configs.SetAllSnoc | src/config/base.py:62-64 | the bulk `set` of one more setting runs it on the fields the earlier ones left |
| Configs.ReloadLine | src/config/base.py:64 | the line of a field that its file brings back restores that field in a fresh configuration |
| Configs.SaveLoadRestores | src/config/base.py:85-100 | save, then load into a configuration with the same registrations: when every field is one whose saved value its `set` takes back, every field is restored and `load` raises nothing |
| Configs.FreshAllReset | src/config/base.py:44-46 | a freshly registered configuration of such field classes is brought back by its file |
| Configs.SetAllKeepsReset | src/config/base.py:62-67 | the bulk `set` keeps every field one that its file brings back |
| Configs.SetAllPassEach | src/config/base.py:62-67 | when the bulk `set` raises nothing, every one of its settings went through |
| Configs.DictBlocksReload | src/config/base.py:104-106 | in the current revision a registered `Dict` field makes loading the file that `save` wrote raise, whatever its state: it saves a list of pairs and its `set` accepts only a dict (src/config/config_types/dict.py:121-123 against 78-79) |
| Configs.DictLineWritten | src/config/base.py:83 | `save` always writes a line for a `Dict` field, holding that field's `to_save` value |
| Configs.DictLineRejected | src/config/config_types/dict.py:78-79 | the bulk `set` rejects with `ValueError` the line a `Dict` field saved, whatever the receiving field's state |
| Configs.DocFacts | src/config/base.py:54-57 | the documented `set({"my_parameter": 3})` on a fresh `Int` field stores 3, `save` writes the one line `my_parameter = 3`, and `get` reads 3 |
| Configs.DocSession | src/config/base.py:89-100 | the documented session: register, set 3, save, register in a new configuration, load, read: the file is one line `my_parameter = 3` and the read gives 3 |
| PyValues.Truthy | modules/base/Base.py:75 | defines `bool(v)`: `None`, zero, `False` and empty strings and containers are false, everything else true |
| PyValues.PyEq | modules/base/Base.py:79 | defines `a == b`: numbers compare by value across `int` and `bool`, other values structurally |
| PyValues.StrOf | src/config/config_types/str.py:55 | defines `str(v)`: decimal text for numbers, `True`/`False`/`None`, the string itself, an object's own text, and containers shown with `repr()` of their items |
| PyValues.Repr | src/config/config_types/str.py:55 | defines `repr(v)`, used by `str()` inside containers: a string in single quotes, an object by its repr, anything else as `str()` |
| PyValues.IntOf | src/config/config_types/int.py:90-93 | `int(v)` succeeds exactly on a number or a well-formed decimal string; it raises `ValueError` exactly for a malformed string and `TypeError` for any other type; a `bool` counts as 0 or 1 |
| PyStrings.RStripSpace | src/config/config_types/int.py:91 | the trailing half of the whitespace strip `int()` applies before reading digits: it returns a prefix of `s` whose dropped characters are all whitespace, and which is empty or ends with a non-space |
| PyStrings.StripSpace | src/config/config_types/int.py:91 | defines `s.strip()` as `int()` applies it to a string: leading, then trailing whitespace dropped |
| PyValues.ParseSigned | src/config/config_types/int.py:91 | defines the text `int()` reads once stripped: an optional `+` or `-`, then a run of ASCII digits with single `_` separators; `None` for anything else |
| PyValues.ParseInt | src/config/config_types/int.py:91 | defines `int(s)` of a string: `ParseSigned` of the whitespace-stripped text, `None` standing for `ValueError` |
| PyValues.Iterate | src/config/config_types/list.py:50 | `for x in v` visits the items of a list or tuple, and is defined exactly for lists, tuples, strings and dicts |
| PyValues.KeyIndex | src/config/config_types/dict.py:104 | the position found holds the first key equal to the one sought; none is found exactly when no key is equal |
| PyValues.Index | src/config/config_types/dict.py:142-144 | `v[n]` of a list or tuple within range is its item; `IndexError` comes only from a sequence and `KeyError` only from a dict |
| PyValues.IntOfDecimal | src/config/config_types/str.py:55 | `int(str(i)) == i` for every integer |
| PyValues.DictInsert | src/config/config_types/dict.py:104 | defines one step of a dict comprehension, `d.update({k: v})`: a key equal (`PyEq`) to one present keeps that key and its place and takes the new value; a new key is appended |
| PyValues.DictFromPairs | src/config/config_types/dict.py:104 | defines the comprehension `{k.get(): v.get() for ...}` on the answers: the pairs inserted in order with `DictInsert`; an unhashable key raises `TypeError` |
| PyValues.DictFromDict | src/config/config_types/dict.py:104 | rebuilding a dict from its own entries gives them back unchanged, in order |
| PyValues.DictFromPairsLast | src/config/config_types/dict.py:104 | every key given to a dict comprehension is in the result, with the value of the last pair whose key is equal |
| FieldTypes.Construct | src/config/config_types/__init__.py:24-48 | `type_()` of a factory class: an `Int` given allowed values together with a bound raises (src/config/config_types/int.py:43-45), a current `List` given `max_len` raises `TypeError`, every other kind builds, and a built field has the shape of its kind |
| FieldTypes.Check | src/config/config_types/base_type.py:2-4 | defines `check_value` for every field class: `Int` and `Color` through `int()` and their bounds, a `List` per item (the current revision) or on the whole value (the legacy one), a `Dict` per entry, and `True` for the other classes; a propagating exception is an `Err` |
| FieldTypes.CheckInt | src/config/config_types/int.py:90-102 | defines `Int.check_value`: `False` when `int(value)` raises `ValueError` (any other exception propagates), when `int(value)` is below `min` or above `max`, or when the raw value is not among `values`; otherwise `True` |
| FieldTypes.CheckColor | src/config/config_types/color.py:47-51 | defines `Color.check_value`: `False` when `int(value)` raises `ValueError`; otherwise the raw value compared with 0 and 0xFFFFFF, which raises `TypeError` for a string |
| FieldTypes.CheckItems | src/config/config_types/list.py:48-55 | defines the loop of the current `List.check_value`: `False` at the first item whose check is false or raises `TypeError`, `True` when every item passes; any other exception propagates |
| FieldTypes.CheckPair | src/config/config_types/dict.py:56 | defines `o_key.check_value(k) and o_value.check_value(v)`: the value is checked only when the key passes, and an exception of either check propagates |
| FieldTypes.CheckEntries | src/config/config_types/dict.py:54-58 | defines the loop of `Dict.check_value` over a dict's items: `False` at the first pair that fails, `True` when every pair passes; an exception propagates |
| FieldTypes.Lookup | src/config/config_types/discord_types/guild.py:153 | defines `client.get_guild(id)`, and `client.get_user(id)` at src/config/config_types/discord_types/user.py:148, over the guilds and users the client knows: the object with that id, or `None` for an unknown id or a value that is not a number |
| FieldTypes.Update | src/config/config_types/discord_types/guild.py:151-155 | defines `_update` of a `Guild`, and of a `User` at src/config/config_types/discord_types/user.py:146-150: on a ready client with nothing cached the object is looked up; otherwise the cache is dropped |
| FieldOps.SetF | src/config/config_types/int.py:119-121 | `set` of any kind (the check, the coercion of the revision, the element loops of `List` and `Dict`, the id of a `Guild` or `User`) yields, on success, a state in the shape of the kind |
| FieldOps.SetCached | src/config/config_types/discord_types/guild.py:81-86 | `set` of a `Guild` or `User` always stores a cached id |
| FieldOps.SetFresh | src/config/config_types/list.py:76-77 | a fresh element field set to an item has the element kind's shape |
| FieldOps.SetItems | src/config/config_types/list.py:74-79 | the loop of `List.set` builds one element per item, each in the element kind's shape |
| FieldOps.SetEntries | src/config/config_types/dict.py:80-86 | the loop of `Dict.set` builds one key field and one value field per item |
| FieldOps.Shown | src/config/config_types/discord_types/user.py:107 | defines `self.user_instance or self.value`, and the same expression of `Guild.get` at src/config/config_types/discord_types/guild.py:109: the cached object when there is one, else the id |
| FieldOps.GetF | src/config/config_types/discord_types/guild.py:108-109 | `get` keeps every state in the shape of its kind, caches included |
| FieldOps.GetItems | src/config/config_types/list.py:97 | the comprehension of `List.get` asks every element in order, one result per element, and keeps their updated states |
| FieldOps.GetEntries | src/config/config_types/dict.py:103-105 | the comprehension of `Dict.get` keeps one key field and one value field per entry |
| FieldOps.ToSaveF | src/config/config_types/base_type.py:14-16 | defines `to_save` for every field class: a scalar field its value, a `Guild` or `User` its id (0 for a falsy id), a `List` its elements' saved values in order, a `Dict` one `[key, value]` list per entry; an unset legacy `List` raises `TypeError`, an unset `Dict` saves an empty list |
| FieldOps.SaveItems | src/config/config_types/list.py:116 | `List.to_save` gives one saved value per element |
| FieldOps.SaveEntries | src/config/config_types/dict.py:121-123 | `Dict.to_save` gives one saved pair per entry |
| FieldOps.LoadF | src/config/config_types/int.py:167-169 | `load` of any kind leaves a state in the shape of its kind, whether it passes or raises |
| FieldOps.LoadCached | src/config/config_types/discord_types/guild.py:143-146 | `load` of a `Guild` or `User` keeps a cached id |
| FieldOps.LoadFresh | src/config/config_types/list.py:133-134 | a fresh element field that loads has the element kind's shape |
| FieldOps.LoadItems | src/config/config_types/list.py:132-135 | the loop of `List.load` only appends: the old elements stay first, at most one element per item is added, and exactly one per item when nothing raises |
| FieldOps.LoadEntries | src/config/config_types/dict.py:139-146 | the loop of `Dict.load` builds one entry per saved pair |
| FieldOps.LoadPair | src/config/config_types/dict.py:141-145 | a loaded pair has a key field and a value field of their kinds' shapes |
| Fields.Field.Init | src/config/config_types/base_type.py:1-20 | a field object holds its revision, its class and a state of that class's shape |
| Fields.Field.Make | src/config/config_types/__init__.py:39-42 | `type_()` builds a fresh field exactly when `Construct` succeeds, with `Construct`'s state, and raises its exception otherwise |
| Fields.Field.CheckValue | src/config/config_types/list.py:48-55 | the loops of `List.check_value` and `Dict.check_value` (src/config/config_types/dict.py:52-59) answer exactly what `Check` specifies, stopping at the first item that decides |
| Fields.Field.Set | src/config/config_types/list.py:72-79 | `set` stores exactly `SetF`'s state on success; on an exception the field is unchanged |
| Fields.Field.BuildItems | src/config/config_types/list.py:74-78 | the loop of `List.set` computes exactly `SetItems`, stopping at the first element that raises |
| Fields.Field.BuildEntries | src/config/config_types/dict.py:80-85 | the loop of `Dict.set` computes exactly `SetEntries` |
| Fields.Field.Get | src/config/config_types/discord_types/user.py:105-107 | `get` returns `GetF`'s result and keeps the cache it updates |
| Fields.Field.ToSave | src/config/config_types/base_type.py:14-16 | defines `to_save()` of a field object: `ToSaveF` of its revision, class and state |
| Fields.Field.Load | src/config/config_types/list.py:130-135 | `load` leaves exactly `LoadF`'s state and outcome, including the elements a failing `List.load` already appended |
| Fields.Field.AppendLoaded | src/config/config_types/list.py:132-135 | the appending loop of `List.load` computes exactly `LoadItems` |
| Fields.Field.LoadPairs | src/config/config_types/dict.py:139-146 | the loop of `Dict.load` computes exactly `LoadEntries` |
| Fields.SetItemsFailsFrom | src/config/config_types/list.py:75-77 | once an element's `set` raises, the remaining items do not matter |
| Fields.SetEntriesFailsFrom | src/config/config_types/dict.py:80-84 | once a key's or value's `set` raises, the remaining items do not matter |
| Fields.LoadItemsFailsFrom | src/config/config_types/list.py:132-135 | once an element's `load` raises, the remaining items do not matter |
| Fields.LoadEntriesFailsFrom | src/config/config_types/dict.py:140-145 | once a pair's `load` raises, the remaining pairs do not matter |
| ScalarLaws.FreshScalar | src/config/config_types/int.py:42 | a fresh `Int`, `Bool` or `Color` (and a legacy `Str`) holds `None`, a current `Str` holds `""` (src/config/config_types/str.py:17); `get` and `to_save` both return it |
| ScalarLaws.IntCheckNumber | src/config/config_types/int.py:90-102 | on a number, `Int.check_value` holds exactly when the number is within the inclusive bounds that are given and among the allowed values when those are given; it never raises |
| ScalarLaws.IntCheckStringWithValues | src/config/config_types/int.py:100-101 | an `Int` with allowed values rejects every string, even one `int()` reads as an allowed value, because membership is decided on the raw value |
| ScalarLaws.IntCheckString | src/config/config_types/int.py:90-98 | without allowed values, a string passes exactly when `int()` reads it as a number within the bounds |
| ScalarLaws.CheckIntRead | src/config/config_types/int.py:95-98 | without allowed values, a value `int()` reads as `n` passes exactly when `n` is within the bounds |
| ScalarLaws.IntCheckRaises | src/config/config_types/int.py:90-93 | `Int.check_value` raises exactly for a value that is neither a number nor a string, and then raises `TypeError` |
| ScalarLaws.ColorCheckNumber | src/config/config_types/color.py:47-51 | on a number, `Color.check_value` holds exactly within `[0, 0xFFFFFF]` |
| ScalarLaws.ColorCheckString | src/config/config_types/color.py:47-51 | a string `int()` reads makes `Color.check_value` raise `TypeError` at the comparison; one it cannot read is rejected |
| ScalarLaws.BoolStrAcceptAll | src/config/config_types/bool.py:59-63 | `Bool` and `Str` (src/config/config_types/str.py:34-38) accept every value |
| ScalarLaws.SetThenGet | src/config/config_types/int.py:119-121 | `set` succeeds exactly when `check_value` holds; an exception of the check propagates, a `False` raises `ValueError`; after a `set`, `get` returns the coerced value: `int()` for a current `Int` and any `Color`, `bool()` for any `Bool`, `str()` for a current `Str`, the raw value for a legacy `Int` and `Str` (config/config_types/int.py:121-123) |
| ScalarLaws.LoadRaw | src/config/config_types/int.py:167-169 | `load` passes exactly when `set` would, raises what `set` would, leaves the field unchanged when it raises, and otherwise stores the raw value |
| ScalarLaws.SetSaveLoad | src/config/config_types/int.py:154 | after a `set`, `to_save` gives the coerced value, and loading it into any field of the kind restores the same state |
| ScalarLaws.CoercedPasses | src/config/config_types/int.py:121 | the coerced value passes the check the original value passed |
| ScalarLaws.IntExamples | src/config/config_types/int.py:58-85 | the documented `check_value` answers for `Int(min=0)`, `Int(min=10, max=20)` and `Int(values=[2,3,5,7])`, and that `Int(min=0, values=[3,4,5])` raises `ValueError` (lines 33-35) |
| ScalarLaws.OtherExamples | src/config/config_types/color.py:53-66 | the documented examples: `Bool.set(34)` stores `True`, `Color.set` of `0x1000000` or `-2` raises, `Color.load(True)` stores `True`, `Str.set(34)` stores `"34"` |
| ListLaws.FreshList | src/config/config_types/list.py:26-27 | a fresh current `List` holds no elements, `get` gives `[]` and `to_save` gives `[]`; a fresh legacy one holds `None` (config/config_types/list.py:12), so `get` raises `ValueError` and `to_save` raises `TypeError` |
| ListLaws.CheckItemsAll | src/config/config_types/list.py:48-55 | the loop of the current check accepts exactly when every item passes the element check, and never lets a `TypeError` out |
| ListLaws.ListCheckCurrent | src/config/config_types/list.py:48-55 | the current `List.check_value` holds exactly when the element class builds, the value is iterable and every item passes; a value that is not iterable is rejected rather than raising |
| ListLaws.ListCheckLegacy | config/config_types/list.py:14-16 | the legacy check hands the whole list to the element check, so a list of `Int` or `Color` raises `TypeError` on every list and a list of `Bool` or `Str` accepts everything |
| ListLaws.SetItemsOk | src/config/config_types/list.py:74-79 | the loop of `set` succeeds exactly when every item can be set on a fresh element field |
| ListLaws.SetItemsSnoc | src/config/config_types/list.py:75-78 | one step of the loop: the last item is set on a fresh element after the others, and appended |
| ListLaws.SetItemsValues | src/config/config_types/list.py:74-79 | a successful loop holds, position by position, the fresh element field set to that item |
| ListLaws.SetItemsError | src/config/config_types/list.py:75-77 | a failing loop raises what the first refusing item raised |
| ListLaws.SetList | src/config/config_types/list.py:72-79 | `List.set` succeeds exactly when (for the current revision) the check holds, the value is iterable and every item sets on a fresh element field; then the values are exactly those fresh fields in item order; the legacy `set` (config/config_types/list.py:18-25) skips the check |
| ListLaws.SetListItems | src/config/config_types/list.py:72-79 | on an iterable value, `set` is the item loop, after the check in the current revision |
| ListLaws.SetItemsMaxLen | config/config_types/list.py:9-11 | `max_len` changes nothing in the loop of `set` |
| ListLaws.LoadItemsMaxLen | config/config_types/list.py:39-42 | `max_len` changes nothing in the loop of `load` |
| ListLaws.MaxLenIgnored | config/config_types/list.py:9-11 | the legacy `max_len` is stored and never read: `set`, `load` and `check_value` are the same whatever it is |
| ListLaws.SetMaxLen | config/config_types/list.py:18-25 | `max_len` changes nothing in the legacy `set` |
| ListLaws.LoadMaxLen | config/config_types/list.py:37-42 | `max_len` changes nothing in the legacy `load` |
| ListLaws.GetItemsOk | src/config/config_types/list.py:97 | `get` raises exactly when the `get` of some element raises |
| ListLaws.GetItemsValues | src/config/config_types/list.py:97 | `get` asks every element on its own state: the list holds exactly their answers in order, and each element keeps the state its own `get` left |
| ListLaws.SaveItemsPointwise | src/config/config_types/list.py:116 | `to_save` saves every element in order, and raises exactly when one of them does |
| ListLaws.LoadItemsPass | src/config/config_types/list.py:132-135 | the loop of `load` passes exactly when every item loads on a fresh element field |
| ListLaws.LoadItemsSnocPass | src/config/config_types/list.py:132-135 | one step of the loop: an earlier exception ends it; otherwise the last item's exception ends it with the earlier elements appended |
| ListLaws.LoadItemsStates | src/config/config_types/list.py:133-135 | every appended element is the freshly loaded field of its item |
| ListLaws.LoadItemsFailAt | src/config/config_types/list.py:133-135 | a failing loop stops at the item after the appended ones, with that item's exception |
| ListLaws.LoadItemsFail | src/config/config_types/list.py:133-135 | the item a failing loop stops at is the first that does not load |
| ListLaws.LoadItemsAppends | src/config/config_types/list.py:132-135 | `load` is not atomic and does not replace: it keeps the old elements and appends, in item order, one freshly loaded element per item, stops at the first item that fails, with that item's exception, and keeps the elements appended before it |
| ListLaws.LoadUnsetLegacy | config/config_types/list.py:37-42 | a legacy `List` that was never set loads only an empty sequence; any other raises, `AttributeError` unless loading the first item already raised, and the field stays unset |
| ListLaws.LoadListCurrent | src/config/config_types/list.py:130-135 | the current `load` raises without change when the check fails; otherwise it appends after the existing elements, and passes exactly when every item loads |
| ListLaws.CheckLegacyPerItem | config/config_types/list.py:14-16 | defines a corrected legacy `List.check_value`: it corrects line 16, which hands the whole value to the element check, to check each item, as the current revision does |
| ListLaws.LegacyPerItemAccepts | config/config_types/list.py:14-16 | corrected legacy check (`CheckLegacyPerItem`, each item handed to the element check): a list is accepted exactly when every item passes the element check |
| DictLaws.FreshDict | src/config/config_types/dict.py:27 | a fresh `Dict` holds `None`: `get` gives `{}` (lines 103-105) and `to_save` gives `[]` (lines 121-123) |
| DictLaws.CheckEntriesAll | src/config/config_types/dict.py:55-58 | the loop of the check accepts exactly when every key passes the key check and its value the value check |
| DictLaws.DictCheck | src/config/config_types/dict.py:52-59 | `Dict.check_value` holds for a dict exactly when every entry passes; the legacy check also takes a two-item list or tuple whose parts pass (config/config_types/dict.py:24-25); anything else is rejected |
| DictLaws.DictCheckCases | src/config/config_types/dict.py:54-59 | the dispatch of `Dict.check_value` on the type of the value, once both inner classes build |
| DictLaws.SetEntriesOk | src/config/config_types/dict.py:80-85 | the loop of `set` succeeds exactly when every key and every value can be set on fresh fields |
| DictLaws.SetEntriesSnoc | src/config/config_types/dict.py:80-85 | one step of the loop: the last item's fresh key and value fields are appended after the others |
| DictLaws.SetEntriesValues | src/config/config_types/dict.py:80-86 | a successful loop holds, per item and in order, the fresh key field set to the key and the fresh value field set to the value |
| DictLaws.SetDict | src/config/config_types/dict.py:77-86 | `Dict.set` succeeds exactly when the check holds, the value is a dict and every key and value sets on fresh fields; then the values are exactly those fields in item order; a legacy pair that passed the check raises `AttributeError` at `value.items()` |
| DictLaws.SetDictEntries | src/config/config_types/dict.py:78-86 | after the check, `set` of a dict is the loop over its items |
| DictLaws.LegacyPairNotStored | config/config_types/dict.py:24-33 | the legacy check accepts a pair `[k, v]` whose parts pass, yet `set` of that pair always raises `AttributeError` |
| DictLaws.GetEntriesDict | src/config/config_types/dict.py:104 | when every key field and value field answers, `get` is the dict built from those answers in entry order |
| DictLaws.GetEntriesOfSet | src/config/config_types/dict.py:80-86 | when the key and value kinds give back what was set on them, the entries built by `set` give back the dict |
| DictLaws.DictSetThenGet | src/config/config_types/dict.py:94-98 | the documented `set({34: 0.75})` then `get()`: a checked dict whose parts the inner kinds give back is stored and returned unchanged by `get` |
| DictLaws.GetPairs | src/config/config_types/dict.py:103-104 | `get` of stored entries is the dict of their answers |
| DictLaws.SaveEntriesPointwise | src/config/config_types/dict.py:121-122 | `to_save` writes one `[key, value]` list per entry, in order, and raises exactly when a key or value field does |
| DictLaws.LoadEntriesAllOk | src/config/config_types/dict.py:139-146 | the loop of `load` succeeds when every saved pair loads |
| DictLaws.LoadEntriesValues | src/config/config_types/dict.py:139-146 | a successful loop holds, in order, the entry loaded from each saved pair |
| DictLaws.LoadedSnoc | src/config/config_types/dict.py:145 | appending the entry loaded from the last saved pair keeps the entries pointwise equal to their loaded pairs |
| DictLaws.LoadEntriesSnoc | src/config/config_types/dict.py:140-145 | one step of the loop: the last saved pair is loaded after the others |
| DictLaws.LoadPairOf | src/config/config_types/dict.py:141-145 | a saved pair `[a, b]` loads `a` on a fresh key field and `b` on a fresh value field, and raises what the first of them raises |
| DictLaws.LoadPairMalformed | src/config/config_types/dict.py:142 | a saved item that cannot be subscripted raises `TypeError`, an empty list `IndexError` |
| DictLaws.LoadDict | src/config/config_types/dict.py:139-146 | `Dict.load` is all or nothing: a value that is not iterable raises `TypeError`; an exception leaves the old values; it passes exactly when every saved pair loads, and then the values are one loaded entry per pair, in order |
| DictLaws.LoadDictCases | src/config/config_types/dict.py:139-146 | the dispatch of `Dict.load` |
| DictLaws.SavedDictNotSettable | src/config/config_types/dict.py:121-123 | what a current `Dict` saves is a list, and its own `set` refuses every list with `ValueError` (lines 78-79), so a saved dict cannot be set back |
| DictLaws.SetLegacyPair | config/config_types/dict.py:28-39 | defines a corrected legacy `Dict.set`: it corrects line 33, `value.items()`, which raises for the two-item list or tuple that lines 24-25 accept, to store such a pair as a dict of one entry; any other value is set as written |
| DictLaws.LegacyPairStored | config/config_types/dict.py:24-33 | corrected legacy `set` (`SetLegacyPair`, which stores the pair its check accepts): a pair `[k, v]` whose parts pass and can be set is stored as one entry made of the fresh key and value fields |
| DictLaws.LegacyPairOtherwise | config/config_types/dict.py:28-39 | for any value other than a two-item list or tuple, the corrected legacy `set` is the `set` as written |
| DiscordLaws.FreshDiscord | src/config/config_types/discord_types/guild.py:32-34 | a fresh `Guild` or `User` (src/config/config_types/discord_types/user.py:30-32) holds the id 0 and no object, saves 0, and on a client that is not ready `get` returns 0; a fresh `Channel` or `Role` holds `None`, which `get` and `to_save` return |
| DiscordLaws.DiscordCheckAll | src/config/config_types/discord_types/guild.py:55-63 | `check_value` of `Guild`, `User`, `Channel` and `Role` holds for every value: every branch returns true |
| DiscordLaws.DiscordLoadFails | src/config/config_types/discord_types/guild.py:143-144 | `load` raises `ValueError` when `check_value` holds, which is always, so every `load` of the four kinds raises and changes nothing (the test is inverted; likewise src/config/config_types/discord_types/channel.py:34-35) |
| DiscordLaws.SetStoresId | src/config/config_types/discord_types/guild.py:81-86 | `set` of a `Guild` or `User` never raises and stores the object's id when given an object of its kind, the value itself otherwise; `to_save` (line 125) then writes that id, or 0 for a false value |
| DiscordLaws.SetPlain | src/config/config_types/discord_types/channel.py:21-31 | `set` of a `Channel` or `Role` stores the value as given, which `get` and `to_save` return |
| DiscordLaws.GetNotReady | src/config/config_types/discord_types/guild.py:151-155 | while the client is not ready, `get` of a `Guild` drops any cached guild and returns the id; a `User` (src/config/config_types/discord_types/user.py:105-107) keeps showing an object it cached before |
| DiscordLaws.GuildGetToggles | src/config/config_types/discord_types/guild.py:108-109 | on a ready client that knows the guild, each `get` of a `Guild` flips its cache: with none cached it returns and caches the guild, with one cached it returns the bare id and forgets the guild |
| DiscordLaws.GuildGetAfterSet | src/config/config_types/discord_types/guild.py:94-97 | `get` right after `set` on a fresh `Guild` returns the id, not the guild the documentation promises, because `set` already cached the guild and `get` toggles it away |
| DiscordLaws.UserGetAfterSet | src/config/config_types/discord_types/user.py:105-107 | a `User` looks its object up only while none is cached, so on a ready client that knows the user, `get` after any `set` returns the user, and keeps doing so |
| DiscordLaws.LoadChecked | src/config/config_types/discord_types/guild.py:143-146 | defines a corrected `load`: it corrects lines 143-144, `if self.check_value(value): raise`, to raise only when the check fails; the `set` and `_update` of lines 145-146 are as written |
| DiscordLaws.LoadCheckedRestores | src/config/config_types/discord_types/guild.py:111-146 | corrected `load` (`LoadChecked`, `if not self.check_value(value)`): loading what `to_save` wrote into a fresh field passes, gives a `Channel` or `Role` its state back, and saves again as the same value |
| DiscordLaws.GetGuildOnce | src/config/config_types/discord_types/guild.py:108-109 | defines a corrected `Guild.get`: it corrects line 108, which runs `_update` even while a guild is cached, so that `_update` (lines 151-155) drops it, to run `_update` only while none is cached, as `User.get` does at src/config/config_types/discord_types/user.py:105-106; the state stays cached |
| DiscordLaws.GuildOnceAfterSet | src/config/config_types/discord_types/guild.py:81-109 | corrected `get` (`GetGuildOnce`, `_update` run only while no guild is cached): a ready client that knows the guild makes `get` right after `set` return the guild object, and every later `get` return it again without changing the field |
| RoundTrip.SetIsStable | src/config/config_types/int.py:119-121 | for the kinds whose `load` reads back their saved form, every state `set` produces is one the kind itself accepts: a plain value that passes the check, elements and entries that do so too |
| RoundTrip.SetFreshIsStable | src/config/config_types/list.py:76-77 | so is every fresh element field that `set` produced |
| RoundTrip.SavedPasses | src/config/config_types/list.py:116 | what such a state (other than a `Dict`) saves passes its kind's own `check_value`, the check that `load` applies first |
| RoundTrip.ReloadState | src/config/config_types/int.py:154-169 | `load` on a fresh field of what `to_save` wrote restores the state exactly, for `Int`, `Bool`, `Color`, `Str`, a current `List` of such kinds and a `Dict` of such kinds |
| RoundTrip.ReloadList | src/config/config_types/list.py:116-135 | `load` on a fresh `List` of its own saved form passes and restores the elements |
| RoundTrip.LoadSavedItems | src/config/config_types/list.py:132-135 | the loop of `load` on an empty list over the saved elements gives those elements back |
| RoundTrip.ReloadDict | src/config/config_types/dict.py:121-146 | `load` on a fresh `Dict` of the pairs it saved restores its entries, as the documented `load([[34, 0.75]])` shows (lines 131-135) |
| RoundTrip.SetSaveLoad | src/config/config_types/dict.py:111-115 | after a successful `set`, `load` of what `to_save` writes into a fresh field gives back the same field |
| RoundTrip.SetSavedPasses | src/config/config_types/list.py:116 | for the kinds whose `set` takes back their saved form, what a `set` produced saves a value that passes the check |
| RoundTrip.SetItemsSavedPass | src/config/config_types/list.py:48-55 | the saved elements of a list that `set` built pass the list check item by item |
| RoundTrip.SetSaveSet | src/config/base.py:83-106 | `set` on a fresh field of what `to_save` wrote after a `set` repeats that `set`'s result; this holds for `Int`, `Bool`, `Color`, `Str`, `Channel`, `Role` and a current `List` of those, which is what the configuration's `save` then `load` relies on |
| RoundTrip.SetItemsSaveSet | src/config/config_types/list.py:74-79 | the loop of `set` over the saved elements repeats the elements `set` built |
| RoundTrip.FreshResets | src/config/base.py:44-46 | a fresh field of such a kind is restored by the configuration's file: it saves `None`, which the file drops, or a value whose `set` rebuilds it |
| RoundTrip.SetResets | src/config/base.py:62-64 | every state a `set` of such a kind produces is restored by the configuration's file |
| RoundTrip.SetReadingSaved | src/config/config_types/dict.py:78-79 | defines a corrected current `Dict.set`: it corrects lines 78-79, which refuse the list of pairs `to_save` writes, to read such a list as `load` reads it into a fresh field; any other value is set as written |
| RoundTrip.SetReadsSaved | src/config/config_types/dict.py:121-123 | corrected `Dict.set` (`SetReadingSaved`: where lines 78-79 refuse a saved list of pairs, it reads the list as `load` does): after a successful `set`, applying that `set` to what `to_save` wrote, on a fresh field, gives the same field back |
| RoundTrip.LoadReplacing | src/config/config_types/list.py:132-135 | defines a corrected current `List.load`: it corrects lines 132-135, which append to `self.values`, to start from no elements once the check passes |
| RoundTrip.LoadReplacingRestores | src/config/config_types/list.py:132-135 | corrected `List.load` (`LoadReplacing`, `self.values = []` after the check): loading a saved list restores exactly the saved state, whatever the field held before |

## Left out

- Files, TOML and `importlib`. The configuration file is the sequence of lines `save` writes and `load` reads; creating its directory, opening it and TOML syntax are not modelled. The TOML encoder is modelled as dropping a top-level `None` and writing every other value back unchanged. The real encoder changes some values, and the model does not capture those changes: a tuple is written as a list, a chat-platform object comes back as the quoted text of its `str`, a `None` inside a list or pair is written as the text `"None"`, and an array that mixes kinds cannot be read back. `RoundTrip.SetSaveLoad`, `RoundTrip.Resettable`, `RoundTrip.SetResets` and `Configs.SaveLoadRestores` hold only for values the encoder writes unchanged. Module metadata is given as data, and importing a module always succeeds.
- Version ranges. A `packaging` `SpecifierSet` is kept as its text, and membership is a predicate the loader is given.
- The chat client. Only `is_ready()`, `get_guild(id)` and `get_user(id)` are modelled, as a `Client` value. Its `warning` log is left out. A guild, its members and their roles in `auth` are plain data.
- `Float` fields. They work on floating point, which is not modelled; no other kind depends on them.
- `write_with_number` of a float, and the keycap ten in `NUMBERS` that no integer reaches. `Emojis` covers integer input only. The module's other emoji constants are data that no core code computes with.
- `print` in `from_irc`, the IRC connection, `send_raw`, and the `\r\n` a sent line ends with. `from_irc` is modelled over the line's bytes, and the `User` the message gets is an object with no state.
- The network backends (Discord gateway, IRC client) and the asynchronous `_send`. These are concurrency and I/O.
- `__repr__` of every class. It only formats text for debugging.
- Objects as `dict` keys. A `Dict` field keys its dict by field objects, and two such objects are never equal; the model keeps one entry per stored item, in insertion order.
- Field classes as function arguments. `factory(cls, *args)` is modelled by the `FieldSpec` it describes, with the constructor arguments as data; an `Int` given a `values` that is not a list is not modelled.
- PyValues.IntOf: reads ASCII decimal digits only, with an optional sign, surrounding whitespace and single `_` separators. Python's `int()` also reads the other Unicode decimal digits (`int("٣") == 3`); the model refuses a string holding them with `ValueError`, as `IsDigit` and `ParseInt` do.
- PyValues.PyEq: numbers compare by value across `int` and `bool`, and every other value, a container included, compares structurally. Python compares the items of a list, tuple or dict with `==`, so `(1,) == (True,)` is true in Python and false in the model. `PyValues.KeyIndex` inherits this: a tuple key holding `True` does not find the same tuple holding `1`.
- PyValues.Repr: always quotes with single quotes and escapes nothing. Python switches to double quotes for text holding a single quote (`repr("it's")`) and escapes control characters (`repr("a\nb")`). `StrOf` of a list or dict inherits this, and it is what the current `Str.set` stores for such a value.
- Cyclic module metadata. `WellRanked` requires a ranking under which every dependency ranks below its dependent, which excludes a cycle of dependencies. On a cycle `load_module` recurses until Python raises `RecursionError`; that case is not modelled.
- Modules.ModuleManager.constructor: lines 106-115 of src/bot_base/modules.py are left out: getting the "modules.toml" configuration, registering "modules_folder" and "enabled_modules", the bulk `set` of their defaults (the `LOCAL_MODULES` environment variable), `config.load()` and the `sys.path` insertion. That `set` passes `no_save=True`, which `Config.set(self, values)` at src/config/base.py:48 does not accept, so as written `__init__` always raises `TypeError` and never returns a manager. The constructor is given the folder and the enabled list instead.
