/**
 What `parse` promises, stated about `Dispatcher.Resolve`: the order of its
 checks at each level, where every outcome's text and handler come from,
 how the option maps of the levels combine, and what the nesting bound does.
 */
module DispatchProperties {
  import opened Strings
  import opened Dispatcher

  /** The levels' maps merged into `acc` one after the other, later ones winning. */
  function FoldMerge(acc: Options, levels: seq<Options>): Options
    decreases |levels|
  {
    if levels == [] then acc else FoldMerge(Merge(acc, levels[0]), levels[1..])
  }

  /** A key ends up in the fold exactly when it was in `acc` or in some level. */
  lemma {:induction false} FoldMergeKeys(acc: Options, levels: seq<Options>, k: string)
    ensures k in FoldMerge(acc, levels) <==> k in acc || exists i :: 0 <= i < |levels| && k in levels[i]
    decreases |levels|
  {
    if levels != [] {
      FoldMergeKeys(Merge(acc, levels[0]), levels[1..], k);
      if exists i :: 0 <= i < |levels| && k in levels[i] {
        var i :| 0 <= i < |levels| && k in levels[i];
        if i > 0 {
          assert k in levels[1..][i - 1];
        }
      }
      assert forall i :: 0 <= i < |levels| - 1 ==> levels[1..][i] == levels[i + 1];
    }
  }

  /** A key that no level returns keeps its value from `acc`. */
  lemma {:induction false} FoldMergeUntouched(acc: Options, levels: seq<Options>, k: string)
    requires k in acc
    requires forall j :: 0 <= j < |levels| ==> k !in levels[j]
    ensures k in FoldMerge(acc, levels) && FoldMerge(acc, levels)[k] == acc[k]
    decreases |levels|
  {
    if levels != [] {
      assert k !in levels[0];
      assert forall j :: 0 <= j < |levels| - 1 ==> levels[1..][j] == levels[j + 1];
      FoldMergeUntouched(Merge(acc, levels[0]), levels[1..], k);
    }
  }

  /** A key takes the value of the last level that returned it. */
  lemma {:induction false} FoldMergeLastWins(acc: Options, levels: seq<Options>, i: nat, k: string)
    requires i < |levels| && k in levels[i]
    requires forall j :: i < j < |levels| ==> k !in levels[j]
    ensures k in FoldMerge(acc, levels) && FoldMerge(acc, levels)[k] == levels[i][k]
    decreases |levels|
  {
    assert forall j :: 0 <= j < |levels| - 1 ==> levels[1..][j] == levels[j + 1];
    if i == 0 {
      FoldMergeUntouched(Merge(acc, levels[0]), levels[1..], k);
    } else {
      FoldMergeLastWins(Merge(acc, levels[0]), levels[1..], i - 1, k);
    }
  }

  /**
   The maps the grammar parser returned on the way, outermost level first
   and, on success, the leaf method's own parse last.
   */
  ghost function Trail(classes: Registry, docopt: Parser, optionsFirst: bool, key: string, args: seq<string>,
                       acc: Options, fuel: nat): seq<Options>
    requires Declares(classes, docopt)
    decreases fuel
  {
    if key !in classes || docopt(classes[key].doc, args, optionsFirst).Rejected? then []
    else
      var opts := docopt(classes[key].doc, args, optionsFirst).opts;
      match Step(classes, docopt, optionsFirst, key, args, acc)
      case Descend(next, nextArgs, merged) =>
        [opts] + (if fuel == 0 then [] else Trail(classes, docopt, optionsFirst, next, nextArgs, merged, fuel - 1))
      case Stop(outcome) =>
        if outcome.Success? then
          [opts, docopt(classes[key].methods[outcome.handler].value, ArgsOf(Merge(acc, opts)), true).opts]
        else [opts]
  }

  /**
   A successful dispatch returns `acc` with the map of every level it went
   through merged in, in order; there are at least two, the entry's own
   parse and the leaf's.
   */
  lemma {:induction false} SuccessFoldsTrail(classes: Registry, docopt: Parser, optionsFirst: bool, key: string,
                                             args: seq<string>, acc: Options, fuel: nat)
    requires Declares(classes, docopt)
    requires Resolve(classes, docopt, optionsFirst, key, args, acc, fuel).Success?
    ensures |Trail(classes, docopt, optionsFirst, key, args, acc, fuel)| >= 2
    ensures Resolve(classes, docopt, optionsFirst, key, args, acc, fuel).options
            == FoldMerge(acc, Trail(classes, docopt, optionsFirst, key, args, acc, fuel))
    decreases fuel
  {
    var opts := docopt(classes[key].doc, args, optionsFirst).opts;
    match Step(classes, docopt, optionsFirst, key, args, acc)
    case Descend(next, nextArgs, merged) =>
      SuccessFoldsTrail(classes, docopt, optionsFirst, next, nextArgs, merged, fuel - 1);
      var rest := Trail(classes, docopt, optionsFirst, next, nextArgs, merged, fuel - 1);
      assert ([opts] + rest)[1..] == rest;
    case Stop(outcome) =>
      var leaf := docopt(classes[key].methods[outcome.handler].value, ArgsOf(Merge(acc, opts)), true).opts;
      assert [opts, leaf][1..] == [leaf] && [leaf][1..] == [];
      assert FoldMerge(acc, [opts, leaf]) == FoldMerge(Merge(acc, opts), [leaf]) == Merge(Merge(acc, opts), leaf);
  }

  /**
   In a successful dispatch every key returned at any level is in the final
   options, and it holds the value of the deepest level that returned it.
   */
  lemma DeepestLevelWins(classes: Registry, docopt: Parser, optionsFirst: bool, key: string, args: seq<string>,
                         acc: Options, fuel: nat, i: nat, k: string)
    requires Declares(classes, docopt)
    requires Resolve(classes, docopt, optionsFirst, key, args, acc, fuel).Success?
    requires i < |Trail(classes, docopt, optionsFirst, key, args, acc, fuel)|
    requires k in Trail(classes, docopt, optionsFirst, key, args, acc, fuel)[i]
    requires forall j :: i < j < |Trail(classes, docopt, optionsFirst, key, args, acc, fuel)| ==>
               k !in Trail(classes, docopt, optionsFirst, key, args, acc, fuel)[j]
    ensures var m := Resolve(classes, docopt, optionsFirst, key, args, acc, fuel).options;
            k in m && m[k] == Trail(classes, docopt, optionsFirst, key, args, acc, fuel)[i][k]
  {
    SuccessFoldsTrail(classes, docopt, optionsFirst, key, args, acc, fuel);
    FoldMergeLastWins(acc, Trail(classes, docopt, optionsFirst, key, args, acc, fuel), i, k);
  }

  /**
   In a successful dispatch the final options have exactly the keys of the
   starting map and of every level's parse; a starting key no level returned
   keeps its value.
   */
  lemma FinalKeys(classes: Registry, docopt: Parser, optionsFirst: bool, key: string, args: seq<string>,
                  acc: Options, fuel: nat, k: string)
    requires Declares(classes, docopt)
    requires Resolve(classes, docopt, optionsFirst, key, args, acc, fuel).Success?
    ensures var m := Resolve(classes, docopt, optionsFirst, key, args, acc, fuel).options;
            var levels := Trail(classes, docopt, optionsFirst, key, args, acc, fuel);
            && (k in m <==> k in acc || exists i :: 0 <= i < |levels| && k in levels[i])
            && (k in acc && (forall i :: 0 <= i < |levels| ==> k !in levels[i]) ==> m[k] == acc[k])
  {
    var levels := Trail(classes, docopt, optionsFirst, key, args, acc, fuel);
    SuccessFoldsTrail(classes, docopt, optionsFirst, key, args, acc, fuel);
    FoldMergeKeys(acc, levels, k);
    if k in acc && (forall i :: 0 <= i < |levels| ==> k !in levels[i]) {
      FoldMergeUntouched(acc, levels, k);
    }
  }

  /**
   A key missing from the registry fails at once: the outcome is the same
   whatever the grammar parser would have done.
   */
  lemma MissingKeyFailsFirst(classes: Registry, docopt: Parser, other: Parser, optionsFirst: bool, key: string,
                             args: seq<string>, acc: Options, fuel: nat)
    requires Declares(classes, docopt) && Declares(classes, other)
    requires key !in classes
    ensures Resolve(classes, docopt, optionsFirst, key, args, acc, fuel) == MissingRoot
    ensures Resolve(classes, other, optionsFirst, key, args, acc, fuel) == MissingRoot
  {
  }

  /** A grammar mismatch ends dispatch with that level's docstring and nothing else. */
  lemma MismatchIsUsage(classes: Registry, docopt: Parser, optionsFirst: bool, key: string, args: seq<string>,
                        acc: Options, fuel: nat)
    requires Declares(classes, docopt)
    requires key in classes && docopt(classes[key].doc, args, optionsFirst).Rejected?
    ensures Resolve(classes, docopt, optionsFirst, key, args, acc, fuel) == Usage(classes[key].doc)
  {
  }

  /**
   A `COMMAND` that is a registry key is followed into that entry, with the
   command put back in front of `ARGS`, whatever methods the current class
   has.
   */
  lemma RegistryBeforeMethods(classes: Registry, docopt: Parser, optionsFirst: bool, key: string, args: seq<string>,
                              acc: Options, fuel: nat, c: string)
    requires Declares(classes, docopt)
    requires key in classes && docopt(classes[key].doc, args, optionsFirst).Accepted?
    requires CommandOf(docopt(classes[key].doc, args, optionsFirst).opts) == Str(c) && c in classes
    requires fuel > 0
    ensures var opts := docopt(classes[key].doc, args, optionsFirst).opts;
            Resolve(classes, docopt, optionsFirst, key, args, acc, fuel)
            == Resolve(classes, docopt, optionsFirst, c, [c] + ArgsOf(opts), Merge(acc, opts), fuel - 1)
  {
  }

  /** An empty command, `-h` or `--help` that is not a registry key ends in help with this level's docstring. */
  lemma HelpEndsAtLevel(classes: Registry, docopt: Parser, optionsFirst: bool, key: string, args: seq<string>,
                        acc: Options, fuel: nat)
    requires Declares(classes, docopt)
    requires key in classes && docopt(classes[key].doc, args, optionsFirst).Accepted?
    requires AsksForHelp(CommandOf(docopt(classes[key].doc, args, optionsFirst).opts))
    requires CommandOf(docopt(classes[key].doc, args, optionsFirst).opts).Null?
             || CommandOf(docopt(classes[key].doc, args, optionsFirst).opts).s !in classes
    ensures Resolve(classes, docopt, optionsFirst, key, args, acc, fuel) == Help(classes[key].doc)
  {
  }

  /**
   A command that is neither a registry key nor a help request, and that
   names no documented method of the class, ends in `NoSuchCommand` with the
   command as given and the current class.
   */
  lemma UnknownCommandUnresolved(classes: Registry, docopt: Parser, optionsFirst: bool, key: string,
                                 args: seq<string>, acc: Options, fuel: nat, c: string)
    requires Declares(classes, docopt)
    requires key in classes && docopt(classes[key].doc, args, optionsFirst).Accepted?
    requires CommandOf(docopt(classes[key].doc, args, optionsFirst).opts) == Str(c)
    requires c !in classes && !AsksForHelp(Str(c))
    requires HandlerName(c) !in classes[key].methods || classes[key].methods[HandlerName(c)].None?
    ensures Resolve(classes, docopt, optionsFirst, key, args, acc, fuel) == Unresolved(NoSuchCommand(c, classes[key]))
  {
  }

  /**
   A command naming a documented method ends the walk there: the method's
   grammar is parsed against this level's `ARGS`, with options first, and
   its map is merged last.
   */
  lemma LeafParsedLast(classes: Registry, docopt: Parser, optionsFirst: bool, key: string, args: seq<string>,
                       acc: Options, fuel: nat, c: string, leafDoc: string)
    requires Declares(classes, docopt)
    requires key in classes && docopt(classes[key].doc, args, optionsFirst).Accepted?
    requires CommandOf(docopt(classes[key].doc, args, optionsFirst).opts) == Str(c)
    requires c !in classes && !AsksForHelp(Str(c))
    requires HandlerName(c) in classes[key].methods && classes[key].methods[HandlerName(c)] == Some(leafDoc)
    ensures var opts := docopt(classes[key].doc, args, optionsFirst).opts;
            Resolve(classes, docopt, optionsFirst, key, args, acc, fuel)
            == match docopt(leafDoc, ArgsOf(opts), true)
               case Rejected => Usage(leafDoc)
               case Accepted(leaf) => Success(key, HandlerName(c), Merge(Merge(acc, opts), leaf))
  {
  }

  /** The docstring of some class in the registry. */
  ghost predicate ClassDoc(classes: Registry, text: string)
  {
    exists k :: k in classes && classes[k].doc == text
  }

  /** The docstring of some method of some class in the registry. */
  ghost predicate MethodDoc(classes: Registry, text: string)
  {
    exists k, n :: k in classes && n in classes[k].methods && classes[k].methods[n] == Some(text)
  }

  /**
   Where an outcome's contents come from: help shows a class docstring; a
   usage exit shows a class or method docstring; success names a
   documented method, with no `-` in its name, of a class in the registry;
   `NoSuchCommand` carries a registry class and a command that is no
   registry key, no help request and no documented method of that class.
   */
  ghost predicate Traceable(classes: Registry, r: Outcome)
  {
    && (r.Help? ==> ClassDoc(classes, r.text))
    && (r.Usage? ==> ClassDoc(classes, r.text) || MethodDoc(classes, r.text))
    && (r.Success? ==> && r.key in classes && r.handler in classes[r.key].methods
                       && classes[r.key].methods[r.handler].Some? && '-' !in r.handler)
    && (r.Unresolved? ==> && r.error.container in classes.Values && r.error.command !in classes
                          && !AsksForHelp(Str(r.error.command))
                          && var name := HandlerName(r.error.command);
                             name !in r.error.container.methods || r.error.container.methods[name].None?)
  }

  /**
   One level ends in a traceable outcome, `MissingRoot` only for a key
   outside the registry, or descends from a registry key into another.
   */
  lemma StepProvenance(classes: Registry, docopt: Parser, optionsFirst: bool, key: string, args: seq<string>,
                       acc: Options)
    requires Declares(classes, docopt)
    ensures var next := Step(classes, docopt, optionsFirst, key, args, acc);
            && (next.Stop? ==> Traceable(classes, next.outcome) && (next.outcome.MissingRoot? <==> key !in classes))
            && (next.Descend? ==> key in classes && next.key in classes)
  {
    if key in classes {
      var cls := classes[key];
      match docopt(cls.doc, args, optionsFirst)
      case Rejected =>
        assert ClassDoc(classes, cls.doc);
      case Accepted(opts) =>
        var merged := Merge(acc, opts);
        var command := CommandOf(merged);
        if command.Str? && command.s in classes {
        } else if AsksForHelp(command) {
          assert ClassDoc(classes, cls.doc);
        } else {
          var name := HandlerName(command.s);
          if name in cls.methods && cls.methods[name].Some? {
            assert MethodDoc(classes, cls.methods[name].value);
          }
        }
    }
  }

  /**
   Where each outcome comes from: only a starting key outside the registry
   gives `MissingRoot`, and every other outcome is traceable to the
   registry.
   */
  lemma {:induction false} OutcomeProvenance(classes: Registry, docopt: Parser, optionsFirst: bool, key: string,
                                             args: seq<string>, acc: Options, fuel: nat)
    requires Declares(classes, docopt)
    ensures var r := Resolve(classes, docopt, optionsFirst, key, args, acc, fuel);
            (r.MissingRoot? <==> key !in classes) && Traceable(classes, r)
    decreases fuel
  {
    StepProvenance(classes, docopt, optionsFirst, key, args, acc);
    match Step(classes, docopt, optionsFirst, key, args, acc)
    case Stop(_) =>
    case Descend(next, nextArgs, merged) =>
      if fuel > 0 {
        OutcomeProvenance(classes, docopt, optionsFirst, next, nextArgs, merged, fuel - 1);
      }
  }

  /**
   `dispatch` fails with the bare exception exactly when the registry has no
   root entry, and whatever else it ends with comes from the registry.
   */
  lemma DispatchNeedsRoot(classes: Registry, docopt: Parser, args: seq<string>, fuel: nat)
    requires Declares(classes, docopt)
    ensures Dispatch(classes, docopt, args, fuel).MissingRoot? <==> Root !in classes
    ensures Traceable(classes, Dispatch(classes, docopt, args, fuel))
  {
    OutcomeProvenance(classes, docopt, true, Root, args, map[], fuel);
  }

  /** More fuel never changes an outcome that was reached within the bound. */
  lemma {:induction false} FuelOnlyBounds(classes: Registry, docopt: Parser, optionsFirst: bool, key: string,
                                          args: seq<string>, acc: Options, fuel: nat, more: nat)
    requires Declares(classes, docopt)
    requires fuel <= more
    requires Resolve(classes, docopt, optionsFirst, key, args, acc, fuel) != OutOfFuel
    ensures Resolve(classes, docopt, optionsFirst, key, args, acc, more)
            == Resolve(classes, docopt, optionsFirst, key, args, acc, fuel)
    decreases fuel
  {
    match Step(classes, docopt, optionsFirst, key, args, acc)
    case Stop(_) =>
    case Descend(next, nextArgs, merged) =>
      assert fuel > 0;
      assert Resolve(classes, docopt, optionsFirst, key, args, acc, fuel)
             == Resolve(classes, docopt, optionsFirst, next, nextArgs, merged, fuel - 1);
      assert Resolve(classes, docopt, optionsFirst, key, args, acc, more)
             == Resolve(classes, docopt, optionsFirst, next, nextArgs, merged, more - 1);
      FuelOnlyBounds(classes, docopt, optionsFirst, next, nextArgs, merged, fuel - 1, more - 1);
  }

  /**
   An entry whose grammar always names that same entry as `COMMAND` never
   resolves: no bound on nesting is enough, so the model runs out of any
   fuel, as the source (CPython has no tail calls) always hits its
   recursion limit and ends in an uncaught `RecursionError`.
   */
  lemma {:induction false} SelfLoopNeverEnds(classes: Registry, docopt: Parser, optionsFirst: bool, key: string,
                                             args: seq<string>, acc: Options, fuel: nat)
    requires Declares(classes, docopt) && key in classes
    requires forall a :: docopt(classes[key].doc, a, optionsFirst) == Accepted(map["COMMAND" := Str(key), "ARGS" := List([])])
    ensures Resolve(classes, docopt, optionsFirst, key, args, acc, fuel) == OutOfFuel
    decreases fuel
  {
    var opts := map["COMMAND" := Str(key), "ARGS" := List([])];
    assert docopt(classes[key].doc, args, optionsFirst) == Accepted(opts);
    if fuel > 0 {
      SelfLoopNeverEnds(classes, docopt, optionsFirst, key, [key], Merge(acc, opts), fuel - 1);
    }
  }
}
