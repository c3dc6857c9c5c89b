/**
 The dispatcher's faulty lines as the source has them, beside the corrected
 definitions in `Dispatcher` that the rest of the model uses. Each member
 here keeps the other parts as intended, so that each fault shows on its own.
 */
module AsWritten {
  import opened Strings
  import opened Dispatcher

  /** The Python exceptions the faulty lines raise. */
  datatype Raised = NameError(name: string) | AttributeError(name: string) | TypeError(callee: string)

  /** A computation that raises or gives back a value. */
  datatype Effect<T> = Raises(error: Raised) | Returns(value: T)

  /**
   `_docopt` as written: the parameter is spelled `agrs` and the body passes
   `args`, a name bound nowhere, so every call raises before docopt runs.
   */
  function DocoptOrExitAsWritten(docopt: Parser, doc: string, args: seq<string>, optionsFirst: bool): Effect<Level>
  {
    Raises(NameError("args"))
  }

  /**
   Whatever the parser answers, the wrapper as written raises, while the
   corrected one returns the parsed map or exits with the docstring.
   */
  lemma DocoptAsWrittenNeverParses(docopt: Parser, doc: string, args: seq<string>, optionsFirst: bool)
    ensures DocoptOrExitAsWritten(docopt, doc, args, optionsFirst) == Raises(NameError("args"))
    ensures docopt(doc, args, optionsFirst).Accepted? ==>
              DocoptOrExit(docopt, doc, args, optionsFirst) == Parsed(docopt(doc, args, optionsFirst).opts)
    ensures docopt(doc, args, optionsFirst).Rejected? ==> DocoptOrExit(docopt, doc, args, optionsFirst) == Exit(doc)
  {
  }

  /**
   `get_handler` as written: the presence check uses the normalised name, but
   `getattr` is then called with the command as given.
   */
  function GetHandlerAsWritten(commandClass: CommandClass, command: string): Effect<Handler>
  {
    var name := HandlerName(command);
    if name !in commandClass.methods then Returns(Unbound(NoSuchCommand(command, commandClass)))
    else if command in commandClass.methods then Returns(Bound(command))
    else Raises(AttributeError(command))
  }

  /** A command only differs from its handler name when it has a `-`. */
  lemma HandlerNameFixes(command: string)
    ensures HandlerName(command) == command <==> '-' !in command
  {
    if '-' in command {
      var i :| 0 <= i < |command| && command[i] == '-';
      assert HandlerName(command)[i] == '_';
    } else {
      assert forall i :: 0 <= i < |command| ==> HandlerName(command)[i] == command[i];
    }
  }

  /**
   The lookup as written agrees with the corrected one exactly when the
   command has no `-` or names no method at all.
   */
  lemma GetHandlerAsWrittenAgrees(commandClass: CommandClass, command: string)
    ensures GetHandlerAsWritten(commandClass, command) == Returns(GetHandler(commandClass, command))
            <==> '-' !in command || HandlerName(command) !in commandClass.methods
  {
    HandlerNameFixes(command);
  }

  /** `dry-run` on a class with a `dry_run` method: found, but `getattr(instance, 'dry-run')` raises. */
  lemma DryRunRaises()
    ensures var cls := CommandClass("Usage: tool COMMAND [ARGS...]", map["dry_run" := Some("Usage: dry-run")]);
            && GetHandler(cls, "dry-run") == Bound("dry_run")
            && GetHandlerAsWritten(cls, "dry-run") == Raises(AttributeError("dry-run"))
  {
    assert HandlerName("dry-run") == "dry_run";
  }

  /**
   One level of `parse` as written, with `_docopt` and `get_handler` as
   intended: descending reads the unbound `options` and raises; a resolved
   handler reaches `getdoc(handler)`, whose `handler` is unbound too, so the
   one-argument `NoSuchCommand(command)` after it is never reached.
   */
  function StepAsWritten(classes: Registry, docopt: Parser, optionsFirst: bool, key: string, args: seq<string>,
                         acc: Options): Effect<Next>
    requires Declares(classes, docopt)
  {
    if key !in classes then Returns(Stop(MissingRoot))
    else
      var commandClass := classes[key];
      match DocoptOrExit(docopt, commandClass.doc, args, optionsFirst)
      case Exit(usage) => Returns(Stop(Usage(usage)))
      case Parsed(opts) =>
        var merged := Merge(acc, opts);
        var command := CommandOf(merged);
        if command.Str? && command.s in classes then Raises(NameError("options"))
        else if AsksForHelp(command) then Returns(Stop(Help(commandClass.doc)))
        else
          match GetHandler(commandClass, command.s)
          case Unbound(error) => Returns(Stop(Unresolved(error)))
          case Bound(_) => Raises(NameError("handler"))
  }

  /**
   The level as written never descends and never succeeds: where the
   corrected level descends it raises on `options`, where it succeeds it
   raises on `handler`, and whenever it does return it agrees with the
   corrected level.
   */
  lemma StepAsWrittenNeverMovesOn(classes: Registry, docopt: Parser, optionsFirst: bool, key: string,
                                  args: seq<string>, acc: Options)
    requires Declares(classes, docopt)
    ensures var intended := Step(classes, docopt, optionsFirst, key, args, acc);
            var written := StepAsWritten(classes, docopt, optionsFirst, key, args, acc);
            && (intended.Descend? ==> written == Raises(NameError("options")))
            && (intended.Stop? && intended.outcome.Success? ==> written == Raises(NameError("handler")))
            && (written.Returns? ==> written.value == intended && intended.Stop? && !intended.outcome.Success?)
  {
  }

  /**
   The end of a level with `getdoc` applied to the handler that was found
   and that handler returned, but with `raise NoSuchCommand(command)` as
   written: the exception takes a command and a container, so the call with
   one argument raises `TypeError` instead of `NoSuchCommand`.
   */
  function LeafUndocumentedAsWritten(docopt: Parser, key: string, commandClass: CommandClass, command: string,
                                     merged: Options): Effect<Outcome>
    requires Reserved(merged)
  {
    match GetHandler(commandClass, command)
    case Unbound(error) => Returns(Unresolved(error))
    case Bound(name) =>
      match commandClass.methods[name]
      case None => Raises(TypeError("NoSuchCommand"))
      case Some(_) => Returns(Leaf(docopt, key, commandClass, command, merged))
  }

  /**
   A method without a docstring is where the two part: the level as written
   raises `TypeError` exactly there, where the corrected level reports the
   command as unknown in its class; everywhere else they agree.
   */
  lemma UndocumentedRaisesTypeError(docopt: Parser, key: string, commandClass: CommandClass, command: string,
                                    merged: Options)
    requires Reserved(merged)
    ensures var intended := Leaf(docopt, key, commandClass, command, merged);
            var written := LeafUndocumentedAsWritten(docopt, key, commandClass, command, merged);
            && (written.Raises? <==> HandlerName(command) in commandClass.methods
                                     && commandClass.methods[HandlerName(command)].None?)
            && (written.Raises? ==> written.error == TypeError("NoSuchCommand")
                                    && intended == Unresolved(NoSuchCommand(command, commandClass)))
            && (written.Returns? ==> written.value == intended)
  {
  }

  /** `status` names a method with no docstring: as written it raises `TypeError`. */
  lemma UndocumentedStatusRaises(docopt: Parser)
    ensures var cls := CommandClass("Usage: tool COMMAND [ARGS...]", map["status" := None]);
            var merged := map["COMMAND" := Str("status"), "ARGS" := List([])];
            && Leaf(docopt, "__root__", cls, "status", merged) == Unresolved(NoSuchCommand("status", cls))
            && LeafUndocumentedAsWritten(docopt, "__root__", cls, "status", merged) == Raises(TypeError("NoSuchCommand"))
  {
    assert HandlerName("status") == "status";
  }
}
