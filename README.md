# docopt-utils dispatcher, modelled in Dafny

`docopt_utils/dispatcher.py` turns a command line into a handler method and an
option map. It walks a registry of command classes. Each class's docstring is
also a docopt usage grammar.

- Dispatch starts at the `__root__` entry.
- At each level it parses that level's grammar against the arguments and
  merges the result into an accumulating option map, with the new parse
  winning.
- It then reads `COMMAND`:
  - a registry key descends into that entry, with `[COMMAND] + ARGS` as the
    new arguments;
  - an empty command, `-h` or `--help` exits with the level's help text;
  - any other command is turned into a method name (`-` becomes `_`); the
    method's own docstring is parsed against `ARGS` and merged last;
  - a method that is missing or has no docstring raises `NoSuchCommand`.
- The handler is finally called with the options. When an environment
  prefix is given, the options are first overlaid with environment
  variables named after the option keys.
- `parse_section` pulls the labelled blocks (such as `commands:`) out of a
  help text.

The model has these modules:

- `Strings` (`strings.dfy`): the Python string operations the code uses,
  written over `seq<char>`. These are `replace`, `upper`, `lstrip`, `strip`,
  `split('\n')` and a case-insensitive substring test.
- `Dispatcher` (`dispatcher.dfy`): the data model and the operations.
  - The data model covers values, command classes, the registry, the
    outcomes and `NoSuchCommand`.
  - The operations are `_docopt`, `get_handler` and one level of `parse`.
  - `Resolve` is the whole dispatch, as a function.
  - `Parse` is the imperative method. Its accumulator is updated level by
    level, and the tail recursion of the source becomes a loop. It is proved
    equal to `Resolve`.
- `DispatchProperties` (`dispatch_properties.dfy`): what dispatch promises,
  proved about `Resolve`.
  - The order of the checks at each level.
  - Where each outcome's text, class and handler come from.
  - How the maps of all levels combine: the deepest parse wins, and keys
    nobody returned keep their values.
  - What the nesting bound does.
- `Overlay` (`overlay.dfy`): the environment overlay of `perform_command`.
- `Sections` (`sections.dfy`) and `SectionExample` (`section_example.dfy`):
  `parse_section` as a line scan, and a worked example.
- `AsWritten` (`as_written.dfy`): the faulty lines of the source as written,
  next to the corrected definitions used everywhere else (see Findings).

The docopt grammar parser is a function parameter, of type
`(doc, argv, options_first) -> Accepted(map) | Rejected`. Each registry
class's grammar is assumed to declare `COMMAND` (a string or `None`) and
`ARGS` (a list); this is the predicate `Dispatcher.Declares`. Python
reflection (`getdoc`, `hasattr`, instantiating the class) becomes the
registry map. Each class carries its docstring and, for each method name, the
method's optional docstring. The process environment is a
`map<string, string>` parameter.

The recursion of `parse` is not guaranteed to resolve: an entry whose grammar
keeps naming itself descends into itself again and again. CPython does not
eliminate tail calls, so the source then reaches the interpreter's recursion
limit (1000 frames by default) and ends in a `RecursionError`, which
`dispatch` does not catch (it catches only `NoSuchCommand`). The model takes a
`fuel` bound on the number of descents, standing for that limit, and ends in
`OutOfFuel` when the bound is reached. `DispatchProperties.SelfLoopNeverEnds`
shows that no bound is enough for such an entry. `DispatchProperties.FuelOnlyBounds`
shows that more fuel never changes an outcome reached within the bound.

The overlay of `perform_command` looks meant to supply environment values
beneath the parsed ones. As the code stands, the environment map only has
keys taken from `options`, and `options` is spread last in
`{**env_options, **options}`. So every environment value is overridden, and
the overlay returns a map equal to the parsed options (`Overlay.OverlayEnv`).
The rebuilt dict may list its keys in a different order, and key order is
not modelled.

## Model

| member | source | states |
|---|---|---|
| Dispatcher.Merge | docopt_utils/dispatcher.py:35 | `dict.update`: keys are the union; every key of the new map takes the new value; every other old key keeps its value |
| Dispatcher.DocoptOrExit | docopt_utils/dispatcher.py:54-58 | a usage exit happens exactly when the grammar rejects the arguments; the exit carries the docstring itself; otherwise the parsed map is passed through untouched |
| Dispatcher.HandlerName | docopt_utils/dispatcher.py:62 | the method name has the command's length, every `-` becomes `_`, every other character stays, and no `-` is left |
| Dispatcher.GetHandler | docopt_utils/dispatcher.py:61-66 | a handler is found exactly when the normalised name is a method of the class, and it is that name; otherwise the result is `NoSuchCommand(command, class)` with the command as given |
| Dispatcher.Resolve | docopt_utils/dispatcher.py:28-51 | `parse` as a function, built from `Step` (lines 29-35: registry lookup, level parse, merge), `Route` (lines 36-43: descend on a registry key, help on `AsksForHelp`, line 42), `Leaf` (lines 45-51: handler lookup, method docstring, leaf parse) and a nesting bound; no contract of its own, specified by `Parse` and the `DispatchProperties` lemmas |
| Dispatcher.Dispatch | docopt_utils/dispatcher.py:19 | the call of `parse` from `__root__` with options first and an empty map; no contract of its own, specified by `DispatchProperties.DispatchNeedsRoot` |
| Dispatcher.Parse | docopt_utils/dispatcher.py:28-51 | the in-place, level-by-level dispatch returns exactly the outcome `Resolve` specifies for the same registry, arguments, starting map and bound |
| DispatchProperties.MissingKeyFailsFirst | docopt_utils/dispatcher.py:29-31 | a key missing from the registry fails with `MissingRoot` whatever the grammar parser would do, so nothing is parsed first |
| DispatchProperties.MismatchIsUsage | docopt_utils/dispatcher.py:35 | a grammar mismatch at a level ends dispatch with a usage exit carrying exactly that level's docstring, and no options |
| DispatchProperties.RegistryBeforeMethods | docopt_utils/dispatcher.py:38-40 | a `COMMAND` that is a registry key descends into that key with `[COMMAND] + ARGS` and the merged map, whatever methods the class has |
| DispatchProperties.HelpEndsAtLevel | docopt_utils/dispatcher.py:42-43 | an empty command, `None`, `-h` or `--help` that is not a registry key ends in help with the current level's docstring |
| DispatchProperties.UnknownCommandUnresolved | docopt_utils/dispatcher.py:45-48 | a command that names no method of the class, or a method without a docstring, ends in `NoSuchCommand` with that command and class |
| DispatchProperties.LeafParsedLast | docopt_utils/dispatcher.py:45-51 | a documented method's grammar is parsed against the merged `ARGS` with options first; a mismatch exits with the method's docstring; a match succeeds with that map merged last |
| DispatchProperties.FoldMergeKeys | docopt_utils/dispatcher.py:35 | after a run of merges, a key is present exactly when it was in the starting map or in some level's map |
| DispatchProperties.FoldMergeUntouched | docopt_utils/dispatcher.py:35 | a starting key that no level returns keeps its starting value |
| DispatchProperties.FoldMergeLastWins | docopt_utils/dispatcher.py:35 | a key takes the value of the last level that returned it |
| DispatchProperties.SuccessFoldsTrail | docopt_utils/dispatcher.py:35-50 | a successful dispatch returns the starting map with every level's parse merged in, in order, ending with the leaf's; there are at least two levels |
| DispatchProperties.DeepestLevelWins | docopt_utils/dispatcher.py:35-50 | in a successful dispatch, every key some level returned is in the result with the value of the deepest level that returned it |
| DispatchProperties.FinalKeys | docopt_utils/dispatcher.py:33-50 | the final keys are exactly the starting keys plus the keys of every level's parse, and a starting key no level returned keeps its value |
| DispatchProperties.StepProvenance | docopt_utils/dispatcher.py:29-51 | one level either descends from a registry key into another registry key, or stops; it stops with `MissingRoot` exactly for a key outside the registry, and otherwise with an outcome traceable to the registry |
| DispatchProperties.OutcomeProvenance | docopt_utils/dispatcher.py:28-51 | `MissingRoot` happens exactly for a starting key outside the registry; help text is a class docstring; usage text is a class or method docstring; success names a documented method, without `-`, of a registry class; `NoSuchCommand` carries a registry class and a command that is no key, no help request and no documented method |
| DispatchProperties.DispatchNeedsRoot | docopt_utils/dispatcher.py:15-19 | `dispatch`, which starts `parse` at `__root__` with options first and an empty map, fails with the bare exception exactly when the registry has no root entry, and any other outcome is traceable to the registry |
| DispatchProperties.FuelOnlyBounds | docopt_utils/dispatcher.py:38-40 | an outcome reached within a nesting bound stays the same under any larger bound |
| DispatchProperties.SelfLoopNeverEnds | docopt_utils/dispatcher.py:38-40 | an entry whose grammar always names itself as `COMMAND` runs out of any nesting bound, so it never resolves (the source ends in `RecursionError`) |
| Strings.LStrip | docopt_utils/dispatcher.py:72 | `lstrip('-')` drops exactly the leading dashes: the result is a suffix, only dashes were removed, and it does not start with one |
| Strings.Replace | docopt_utils/dispatcher.py:62 | `replace` on one character keeps the length and swaps every occurrence of the target, and only those |
| Strings.Upper | docopt_utils/dispatcher.py:72 | `upper` keeps the length and upper-cases every ASCII letter, character by character |
| Strings.Strip | docopt_utils/dispatcher.py:85 | `strip()` returns a slice of the text with only whitespace before and after it, and whitespace on neither of its ends |
| Strings.Lines | docopt_utils/dispatcher.py:83-84 | the help text splits into at least one line, none holding a newline |
| Strings.JoinLinesOfLines | docopt_utils/dispatcher.py:83-84 | joining the lines with newlines gives back the text |
| Strings.LabelSurvivesStrip | docopt_utils/dispatcher.py:83-85 | stripping a block whose first line holds the label keeps the label on the first line, when the label has no whitespace at either end |
| Overlay.EnvChar | docopt_utils/dispatcher.py:72 | a key character becomes `_` for `-`, its upper case for an ASCII lower-case letter, and itself otherwise; so never `-` and never lower case |
| Overlay.EnvVarName | docopt_utils/dispatcher.py:71-72 | the variable name is the prefix, then `_`, then each character of the key without its leading dashes passed through `EnvChar`, and nothing more |
| Overlay.EnvVarNameShape | docopt_utils/dispatcher.py:71-72 | after the prefix, a variable name holds no `-` and no lower-case ASCII letter |
| Overlay.EnvOptions | docopt_utils/dispatcher.py:72-76 | the environment map has only option keys; a key is in it exactly when its variable is set, and it maps to that variable's value |
| Overlay.OverlayEnv | docopt_utils/dispatcher.py:70-77 | with or without a prefix, the overlaid map equals the parsed options as a map: parsed values always win and the environment adds no key |
| Sections.BlockEnd | docopt_utils/dispatcher.py:83 | a block's continuation is the longest run of lines that start with a space or a tab |
| Sections.Scan | docopt_utils/dispatcher.py:83-85 | there are no more entries than lines; every entry is stripped; there are none exactly when no line contains the label |
| Sections.ParseSection | docopt_utils/dispatcher.py:82-85 | every entry is stripped, and the result is empty exactly when no line of the text contains the label, ignoring case |
| Sections.ScanEntriesAreBlocks | docopt_utils/dispatcher.py:83-85 | every entry found from a given line on is, for some line at or after it that contains the label, that line with the indented lines right after it, joined and stripped |
| Sections.HeaderYieldsEntry | docopt_utils/dispatcher.py:83-85 | a line containing the label that the scan reaches (the starting line, or one that is not indented) gives its block, with its indented continuation lines, as an entry |
| Sections.SectionEntriesAreBlocks | docopt_utils/dispatcher.py:82-85 | each entry is a labelled line together with the indented lines after it, joined and stripped; every labelled line that is the first line or not indented gives such an entry |
| Sections.ScanHeaders | docopt_utils/dispatcher.py:83-85 | the entries found from a given line on are, in order, the blocks of a strictly increasing list of labelled lines, each starting no earlier than the end of the block before it, and every other labelled line lies inside one of those blocks |
| Sections.SectionHeaders | docopt_utils/dispatcher.py:82-85 | the entries of a section are, in source order, the blocks of successive labelled lines, each found after the previous block ends; a labelled line inside a block (indented) opens no entry of its own |
| SectionExample.IndentedLabelAbsorbed | docopt_utils/dispatcher.py:83 | a `commands:` line followed by an indented `  sub commands:` line gives one entry, not two |
| Sections.ScanEntriesNamed | docopt_utils/dispatcher.py:83-85 | every entry found from a given line on has the label on its first line |
| Sections.SectionEntriesNamed | docopt_utils/dispatcher.py:82-85 | every entry has the label on its first line, compared ignoring ASCII case |
| SectionExample.CommandsSectionExample | docopt_utils/dispatcher.py:82-85 | a help text with a usage line and a `commands:` block of two indented commands gives that block as one entry, verbatim |
| AsWritten.DocoptOrExitAsWritten | docopt_utils/dispatcher.py:54-58 | `_docopt` as written: raises `NameError` on `args` before the parser runs; no contract of its own, specified by `DocoptAsWrittenNeverParses` |
| AsWritten.GetHandlerAsWritten | docopt_utils/dispatcher.py:61-66 | `get_handler` as written: checks the normalised name, then looks up the command as given, raising `AttributeError` when only the normalised name exists; no contract of its own, specified by `GetHandlerAsWrittenAgrees` and `DryRunRaises` |
| AsWritten.StepAsWritten | docopt_utils/dispatcher.py:38-51 | one level of `parse` as written (with `_docopt` and `get_handler` corrected): `NameError` on `options` when descending, `NameError` on `handler` once a method is found; no contract of its own, specified by `StepAsWrittenNeverMovesOn` |
| AsWritten.LeafUndocumentedAsWritten | docopt_utils/dispatcher.py:45-48 | the end of a level with lines 46 and 51 corrected and line 48 as written: `TypeError` for a found method without a docstring; no contract of its own, specified by `UndocumentedRaisesTypeError` and `UndocumentedStatusRaises` |
| AsWritten.DocoptAsWrittenNeverParses | docopt_utils/dispatcher.py:54-58 | whatever the grammar parser answers, the wrapper as written raises `NameError` on `args`, while the corrected wrapper returns the parsed map on acceptance and exits with the docstring on rejection |
| AsWritten.HandlerNameFixes | docopt_utils/dispatcher.py:62 | the normalised name equals the command exactly when the command has no `-` |
| AsWritten.GetHandlerAsWrittenAgrees | docopt_utils/dispatcher.py:61-66 | the lookup as written agrees with the corrected lookup exactly when the command has no `-` or its normalised name is no method |
| AsWritten.DryRunRaises | docopt_utils/dispatcher.py:65-66 | `dry-run` on a class with a `dry_run` method is found by the corrected lookup, but as written `getattr` raises `AttributeError` |
| AsWritten.StepAsWrittenNeverMovesOn | docopt_utils/dispatcher.py:38-51 | as written, a level raises `NameError` on `options` where the corrected level descends, and on `handler` where it succeeds; when it does return, it agrees with the corrected level on a non-success outcome |
| AsWritten.UndocumentedRaisesTypeError | docopt_utils/dispatcher.py:45-48 | with lines 46 and 51 corrected, the one-argument `NoSuchCommand(command)` raises `TypeError` exactly for a found method without a docstring, where the corrected level reports `NoSuchCommand(command, class)`; otherwise the two agree |
| AsWritten.UndocumentedStatusRaises | docopt_utils/dispatcher.py:47-48 | `status` on a class whose `status` method has no docstring: the corrected level reports it unknown, the level as written raises `TypeError` |

## Left out

- The docopt grammar language and parser: this is a foreign library. It is a function parameter, assumed to put `COMMAND` and `ARGS` in every map it returns for a registry class's grammar. The library's own endings are outside this two-answer parser: with its default `help=True` it prints the docstring and exits with status 0 when `-h` or `--help` is among the option tokens (so such a help request ends inside docopt, before line 42), it exits on `--version` when a version is given, and it raises `DocoptLanguageError` for a docstring without a usage section, such as a method documented in prose only.
- `dispatch`: only its call of `parse` is modelled (`Dispatcher.Dispatch`). Reading `sys.argv` when no arguments are given, logging the error, `sys.exit(1)`, and building the `functools.partial`. These are process I/O; their results only show up as outcome variants.
- Exit statuses: the help exit (dispatcher.py:43) and the usage exit (dispatcher.py:58) are both `raise SystemExit(text)`, which in CPython prints the text to standard error and exits with status 1. The source does not tell them apart. The model keeps them apart, as `Help` and `Usage`, each with its text, to state which docstring each one shows.
- Python reflection: `getdoc`, `hasattr`, `getattr` and instantiating the command class are replaced by the registry map. A handler is identified by its method name, not by a bound method. A class whose docstring is `None` is not modelled: `getdoc` would give `None` to docopt.
- Calling the handler in `perform_command`: the model stops at the options it would be given.
- Reading `os.environ`: the environment is a map parameter.
- `Dispatcher.Parse`: the recursion is bounded by `fuel`, which stands for CPython's recursion limit. A dispatch that would descend more often than the bound ends in `OutOfFuel` rather than in the source's `RecursionError`; the exact limit of 1000 frames is not modelled.
- `Dispatcher.Parse`: a `command_opts` map passed in by the caller is updated in place in the source, so the caller can see it change afterwards. The model takes and returns values, so this aliasing is not modelled.
- `Sections.ParseSection`: the label is matched as literal text. A label containing regular-expression metacharacters or a newline is not modelled; the only label used is `commands:`.
- `Sections.ParseSection`, `Overlay.EnvVarName`: case folding and upper-casing cover ASCII letters only. Python's Unicode case rules are not modelled.
- The message text of `NoSuchCommand` (`No such command: ` and the command): nothing in the modelled core reads it. The model keeps the exception's data, the command and the class.
- `setup.py`: packaging metadata with no logic.

## Findings

| source | as written | input that shows it | evidently intended | confidence | as-written member | corrected member |
|---|---|---|---|---|---|---|
| docopt_utils/dispatcher.py:40 | descends with `options['ARGS']`; `options` is bound nowhere in `parse` | a root grammar whose `COMMAND` is another registry key, e.g. `deploy` with both `__root__` and `deploy` registered | `command_opts['ARGS']`, the merged map | not executed | AsWritten.StepAsWrittenNeverMovesOn | DispatchProperties.RegistryBeforeMethods |
| docopt_utils/dispatcher.py:46-51 | reads the docstring of, and returns, `handler`, which is bound nowhere (the lookup result is `command_handler`) | any `COMMAND` naming a method of the class, e.g. `build` on a class with a documented `build` method | `getdoc(command_handler)` and `return command_handler, command_opts` | not executed | AsWritten.StepAsWrittenNeverMovesOn | DispatchProperties.LeafParsedLast |
| docopt_utils/dispatcher.py:48 | `NoSuchCommand(command)` passes one argument to a constructor that takes two, so it raises `TypeError` (reached once line 46 is corrected) | `status` on a class whose `status` method has no docstring | `NoSuchCommand(command, command_class)` | not executed | AsWritten.UndocumentedStatusRaises | DispatchProperties.UnknownCommandUnresolved |
| docopt_utils/dispatcher.py:54-56 | the parameter is spelled `*agrs` and the body passes `*args`, which is bound nowhere | any call of `_docopt`, i.e. every dispatch from a registered root | the arguments are passed on to docopt | not executed | AsWritten.DocoptAsWrittenNeverParses | Dispatcher.DocoptOrExit |
| docopt_utils/dispatcher.py:66 | `getattr(instance, command)` with the command as given | `dry-run` on a class with a `dry_run` method | `getattr(instance, command_name)` | not executed | AsWritten.DryRunRaises | Dispatcher.GetHandler |
