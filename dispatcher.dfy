/**
 The recursive command dispatcher of `docopt_utils/dispatcher.py`.

 A registry maps command names to command classes; each class carries a
 docstring that doubles as its usage grammar and a set of handler methods,
 each with an optional docstring of its own. Dispatch starts at the
 `__root__` entry, parses that level's grammar against the arguments, merges
 the result into an accumulating option map and reads `COMMAND`: a registry
 key descends one level, an empty command or `-h`/`--help` ends in a help
 exit, and anything else names a handler method whose own grammar is parsed
 last.

 The docopt grammar parser is a function parameter; Python reflection is the
 registry map.
 */
module Dispatcher {
  import opened Strings

  datatype Option<T> = None | Some(value: T)

  /** A value docopt puts in its result: str, bool, int, list of str or None. */
  datatype Value = Str(s: string) | Flag(b: bool) | Count(n: int) | List(items: seq<string>) | Null

  /** Option and positional names to their values. */
  type Options = map<string, Value>

  /**
   A command class: its docstring, and for each attribute that `hasattr`
   finds on it, that method's docstring (`None` when it has none).
   */
  datatype CommandClass = CommandClass(doc: string, methods: map<string, Option<string>>)

  type Registry = map<string, CommandClass>

  /** The registry key dispatch starts from. */
  const Root := "__root__"

  /** What the grammar parser does with a docstring and arguments: a map, or `DocoptExit`. */
  datatype Grammar = Accepted(opts: Options) | Rejected

  /** `docopt(doc, argv, options_first=...)`, left abstract. */
  type Parser = (string, seq<string>, bool) -> Grammar

  /** The data of the `NoSuchCommand` exception. */
  datatype NoSuchCommand = NoSuchCommand(command: string, container: CommandClass)

  /** How one dispatch ends. */
  datatype Outcome =
    | Success(key: string, handler: string, options: Options)  // the class entry, the method, the merged options
    | Help(text: string)                                      // `SystemExit` with a level's docstring on a help request
    | Usage(text: string)                                     // `SystemExit` with a docstring the arguments did not match
    | Unresolved(error: NoSuchCommand)
    | MissingRoot                                             // the bare `Exception` for a key not in the registry
    | OutOfFuel                                               // the model's bound on nesting was reached

  /** `COMMAND` (a string or None) and `ARGS` (a list) are in the map. */
  predicate Reserved(opts: Options)
  {
    && "COMMAND" in opts && (opts["COMMAND"].Str? || opts["COMMAND"].Null?)
    && "ARGS" in opts && opts["ARGS"].List?
  }

  /** Every grammar in the registry declares `COMMAND` and `ARGS`. */
  ghost predicate Declares(classes: Registry, docopt: Parser)
  {
    forall key, args, optionsFirst ::
      key in classes && docopt(classes[key].doc, args, optionsFirst).Accepted? ==>
        Reserved(docopt(classes[key].doc, args, optionsFirst).opts)
  }

  function CommandOf(opts: Options): Value
    requires Reserved(opts)
  {
    opts["COMMAND"]
  }

  function ArgsOf(opts: Options): seq<string>
    requires Reserved(opts)
  {
    opts["ARGS"].items
  }

  /** Python's `not v`. */
  predicate Falsy(v: Value)
  {
    match v
    case Str(s) => s == ""
    case Flag(b) => !b
    case Count(n) => n == 0
    case List(items) => items == []
    case Null => true
  }

  /** `not command or command in ('-h', '--help')`. */
  predicate AsksForHelp(command: Value)
  {
    Falsy(command) || command == Str("-h") || command == Str("--help")
  }

  /** `dict.update`: the newer map's entries replace the older ones. */
  function Merge(acc: Options, update: Options): (r: Options)
    ensures r.Keys == acc.Keys + update.Keys
    ensures forall k :: k in update ==> r[k] == update[k]
    ensures forall k :: k in acc && k !in update ==> r[k] == acc[k]
  {
    acc + update
  }

  /** What `_docopt` gives back: the parsed map, or a usage exit. */
  datatype Level = Parsed(opts: Options) | Exit(usage: string)

  /** `_docopt`: a mismatch becomes a usage exit carrying the docstring itself. */
  function DocoptOrExit(docopt: Parser, doc: string, args: seq<string>, optionsFirst: bool): (r: Level)
    ensures r.Exit? <==> docopt(doc, args, optionsFirst).Rejected?
    ensures r.Exit? ==> r.usage == doc
    ensures r.Parsed? ==> r.opts == docopt(doc, args, optionsFirst).opts
  {
    match docopt(doc, args, optionsFirst)
    case Accepted(opts) => Parsed(opts)
    case Rejected => Exit(doc)
  }

  /** The method name a command stands for: every `-` turned into `_`. */
  function HandlerName(command: string): (name: string)
    ensures |name| == |command| && '-' !in name
    ensures forall i :: 0 <= i < |command| ==> name[i] == if command[i] == '-' then '_' else command[i]
  {
    Replace(command, '-', '_')
  }

  /** What `get_handler` finds: a method name, or `NoSuchCommand`. */
  datatype Handler = Bound(name: string) | Unbound(error: NoSuchCommand)

  /** `get_handler`: look the normalised name up on the class. */
  function GetHandler(commandClass: CommandClass, command: string): (r: Handler)
    ensures r.Bound? <==> HandlerName(command) in commandClass.methods
    ensures r.Bound? ==> r.name == HandlerName(command)
    ensures r.Unbound? ==> r.error == NoSuchCommand(command, commandClass)
  {
    var name := HandlerName(command);
    if name in commandClass.methods then Bound(name) else Unbound(NoSuchCommand(command, commandClass))
  }

  /** One call of `parse` either recurses with a new key, arguments and accumulator, or ends. */
  datatype Next = Descend(key: string, args: seq<string>, acc: Options) | Stop(outcome: Outcome)

  /**
   The end of a level whose command is neither a registry key nor a help
   request: look the handler up, then parse the method's own docstring
   against `ARGS`, options first, and merge that map last.
   */
  function Leaf(docopt: Parser, key: string, commandClass: CommandClass, command: string, merged: Options): Outcome
    requires Reserved(merged)
  {
    match GetHandler(commandClass, command)
    case Unbound(error) => Unresolved(error)
    case Bound(name) =>
      match commandClass.methods[name]
      case None => Unresolved(NoSuchCommand(command, commandClass))
      case Some(leafDoc) =>
        match DocoptOrExit(docopt, leafDoc, ArgsOf(merged), true)
        case Exit(usage) => Usage(usage)
        case Parsed(leaf) => Success(key, name, Merge(merged, leaf))
  }

  /** What a level does with its `COMMAND`, once its parse is merged. */
  function Route(classes: Registry, docopt: Parser, key: string, commandClass: CommandClass, merged: Options): Next
    requires Reserved(merged)
  {
    var command := CommandOf(merged);
    if command.Str? && command.s in classes then
      Descend(command.s, [command.s] + ArgsOf(merged), merged)
    else if AsksForHelp(command) then
      Stop(Help(commandClass.doc))
    else
      Stop(Leaf(docopt, key, commandClass, command.s, merged))
  }

  /** One level of `parse`, with `acc` the options accumulated so far. */
  function Step(classes: Registry, docopt: Parser, optionsFirst: bool, key: string, args: seq<string>, acc: Options): Next
    requires Declares(classes, docopt)
  {
    if key !in classes then Stop(MissingRoot)
    else
      match DocoptOrExit(docopt, classes[key].doc, args, optionsFirst)
      case Exit(usage) => Stop(Usage(usage))
      case Parsed(opts) => Route(classes, docopt, key, classes[key], Merge(acc, opts))
  }

  /**
   `parse` from registry entry `key`: the steps above repeated, descending
   at most `fuel` times.
   */
  function Resolve(classes: Registry, docopt: Parser, optionsFirst: bool, key: string, args: seq<string>,
                   acc: Options, fuel: nat): Outcome
    requires Declares(classes, docopt)
    decreases fuel
  {
    match Step(classes, docopt, optionsFirst, key, args, acc)
    case Stop(outcome) => outcome
    case Descend(next, nextArgs, merged) =>
      if fuel == 0 then OutOfFuel else Resolve(classes, docopt, optionsFirst, next, nextArgs, merged, fuel - 1)
  }

  /**
   The call `dispatch` makes: `parse` from the root entry with options first,
   an empty accumulator and the given arguments.
   */
  function Dispatch(classes: Registry, docopt: Parser, args: seq<string>, fuel: nat): Outcome
    requires Declares(classes, docopt)
  {
    Resolve(classes, docopt, true, Root, args, map[], fuel)
  }

  /**
   `parse`, as the source runs it: the accumulator `acc` is updated in place
   at each level, and the recursive call that descends into another entry is
   the next turn of the loop.
   */
  method Parse(classes: Registry, docopt: Parser, optionsFirst: bool, command: string, args: seq<string>,
               commandOpts: Options, fuel: nat) returns (r: Outcome)
    requires Declares(classes, docopt)
    ensures r == Resolve(classes, docopt, optionsFirst, command, args, commandOpts, fuel)
  {
    var key, rest, acc, budget := command, args, commandOpts, fuel;
    var done := false;
    r := OutOfFuel;
    while !done
      invariant !done ==> Resolve(classes, docopt, optionsFirst, key, rest, acc, budget)
                          == Resolve(classes, docopt, optionsFirst, command, args, commandOpts, fuel)
      invariant done ==> r == Resolve(classes, docopt, optionsFirst, command, args, commandOpts, fuel)
      decreases budget + (if done then 0 else 1)
    {
      if key !in classes {
        r, done := MissingRoot, true;
      } else {
        var commandClass := classes[key];
        var level := DocoptOrExit(docopt, commandClass.doc, rest, optionsFirst);
        if level.Exit? {
          r, done := Usage(level.usage), true;
        } else {
          acc := Merge(acc, level.opts);
          var next := CommandOf(acc);
          if next.Str? && next.s in classes {
            if budget == 0 {
              r, done := OutOfFuel, true;
            } else {
              key, rest, budget := next.s, [next.s] + ArgsOf(acc), budget - 1;
            }
          } else if AsksForHelp(next) {
            r, done := Help(commandClass.doc), true;
          } else {
            var handler := GetHandler(commandClass, next.s);
            if handler.Unbound? {
              r := Unresolved(handler.error);
            } else if commandClass.methods[handler.name].None? {
              r := Unresolved(NoSuchCommand(next.s, commandClass));
            } else {
              var leaf := DocoptOrExit(docopt, commandClass.methods[handler.name].value, ArgsOf(acc), true);
              if leaf.Exit? {
                r := Usage(leaf.usage);
              } else {
                r := Success(key, handler.name, Merge(acc, leaf.opts));
              }
            }
            done := true;
          }
        }
      }
    }
  }
}
