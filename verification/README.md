# PipeBehavior, modelled in Dafny

`PipeBehavior` is a behavior for Yii components that lets a fluent call chain
keep the result of one owner method and feed it into a later one:
`->pipe('gimmeAll')->unpipe('toSomething', '{r}')`. It holds one private slot,
`_result`:

- `pipe(method, args...)` calls the owner's `method` with `args`. It stores what
  the call returns in the slot and returns the owner.
- `unpipe(method, args...)` builds the argument list. With no arguments, the list
  is the stored result alone. Otherwise, every argument identical (`===`) to the
  string `'{r}'` is replaced by the stored result. It then calls `method`,
  resets the slot to `null` and returns what the call returned.

The model has four modules:

- `Values` (values.dfy): PHP values (`Value`), where `==` is PHP's `===`. It also
  holds the record of one call on the owner (`Invocation`).
- `Owners` (owner.dfy): the owner component. Its methods are an opaque function
  `respond(history, name, args)`. `log` is the history of calls it has received,
  so every contract can say exactly which arguments were forwarded.
- `Pipe` (pipe_behavior.dfy): the marker `Placeholder` (`VStr("{r}")`) and the
  substitution rule as functions (`Resolve`, `Substitute`, `UnpipeArguments`)
  with their lemmas. It also holds the loop that applies the rule
  (`BindArguments`) and the class `PipeBehavior`, whose field `result` is
  `_result`.
- `Chains` (chains.dfy): call chains as a client sees them. These are pipe then
  unpipe, two pipes then an unpipe, and two unpipes in a row.

## Model

| member | source | states |
|---|---|---|
| Pipe.Substitute | PipeBehavior.php:67-71 | rewriting the arguments keeps their number |
| Pipe.SubstituteAt | PipeBehavior.php:67-71 | at every position, an argument identical to `'{r}'` becomes the stored result and any other argument, an explicit null included, is unchanged |
| Pipe.SubstituteWithoutPlaceholder | PipeBehavior.php:66-72 | an argument list with no `'{r}'` is forwarded exactly as given |
| Pipe.UnpipeArguments | PipeBehavior.php:64-72 | the forwarded list has one element when no arguments were given and as many as were given otherwise |
| Pipe.OmittedArgumentsMeanPlaceholder | PipeBehavior.php:16-19 | omitting the arguments forwards `[stored]`, the same as passing `'{r}'` alone; passing an explicit null forwards `[null]` |
| Pipe.PlaceholderConsumed | PipeBehavior.php:64-72 | when the stored result is not itself `'{r}'`, no `'{r}'` is left in the forwarded arguments |
| Pipe.StoredForwarded | PipeBehavior.php:64-72 | the stored result reaches the call if and only if the arguments were omitted, contain `'{r}'` or already contain that value |
| Pipe.BindArguments | PipeBehavior.php:64-72 | the loop over the arguments produces exactly the list the substitution rule defines |
| Owners.Owner.Call | PipeBehavior.php:46-49 | a call by name returns the owner's answer to that name and those arguments, and is recorded after the earlier calls |
| Pipe.PipeBehavior.constructor | PipeBehavior.php:34 | the slot starts as null |
| Pipe.PipeBehavior.Pipe | PipeBehavior.php:43-51 | forwards exactly the given arguments, stores what the call returned (replacing any earlier value), and returns the owner |
| Pipe.PipeBehavior.Unpipe | PipeBehavior.php:61-79 | forwards the substituted arguments built from the slot's old value, resets the slot to null, and returns what the call returned |
| Chains.PipeThenUnpipe | PipeBehavior.php:13-19 | `pipe(m, args)->unpipe(n)` calls `m` with `args`, then calls `n` with the single value `m` returned, and leaves the slot null |
| Chains.PipeTwiceThenUnpipe | PipeBehavior.php:46 | after two pipes, the unpipe receives the second pipe's result only |
| Chains.UnpipeTwice | PipeBehavior.php:77 | an unpipe straight after another unpipe passes null as the stored result |

## Left out

- The Yii `CBehavior` attachment and `getOwner()` are not modelled. The owner is a
  fixed reference given at construction.
- Dispatch by name (`call_user_func_array`) is modelled as the opaque function
  `Owner.respond`. The model does not resolve method names.
- Errors are not modelled. A missing method or an exception thrown by the owner's
  method is raised by PHP and the framework, not by this class; in the model
  every call returns a value.
- PHP floats and resources are not among the modelled values. Arrays are
  modelled as lists, without keys.
- `func_get_args` and `array_shift` are modelled as the argument sequence after
  the method name.
- `unpipe` rewrites its argument array in place. The model rewrites a local
  sequence, which is the same thing for a PHP array, since PHP arrays are values.
- Sharing one behavior between interleaved call chains is not modelled.
