/** The pipe behavior: one stored result, saved by `Pipe` and fed by `Unpipe`
    into a later call on the same owner. */
module Pipe {
  import opened Values
  import opened Owners

  /** The marker that stands for the stored result in an `Unpipe` argument list. */
  const Placeholder: Value := VStr("{r}")

  /** What one argument of `Unpipe` becomes: the stored result if it is
      identical to the marker, itself otherwise. */
  function Resolve(arg: Value, stored: Value): Value
  {
    if arg == Placeholder then stored else arg
  }

  /** Every argument resolved against `stored`, in order. */
  function Substitute(args: seq<Value>, stored: Value): (r: seq<Value>)
    ensures |r| == |args|
  {
    if args == [] then [] else [Resolve(args[0], stored)] + Substitute(args[1..], stored)
  }

  /** The argument list `Unpipe` forwards: the stored result alone when no
      arguments were given, the substituted arguments otherwise. */
  function UnpipeArguments(args: seq<Value>, stored: Value): (r: seq<Value>)
    ensures |r| == if args == [] then 1 else |args|
  {
    if |args| == 0 then [stored] else Substitute(args, stored)
  }

  /** Position by position: a marker becomes the stored result, anything else
      (an explicit null included) is passed unchanged. */
  lemma {:induction false} SubstituteAt(args: seq<Value>, stored: Value, i: nat)
    requires i < |args|
    ensures |Substitute(args, stored)| == |args|
    ensures args[i] == Placeholder ==> Substitute(args, stored)[i] == stored
    ensures args[i] != Placeholder ==> Substitute(args, stored)[i] == args[i]
  {
    if i > 0 {
      SubstituteAt(args[1..], stored, i - 1);
    }
  }

  /** Arguments without a marker are forwarded exactly as given. */
  lemma {:induction false} SubstituteWithoutPlaceholder(args: seq<Value>, stored: Value)
    requires Placeholder !in args
    ensures Substitute(args, stored) == args
  {
    if args != [] {
      assert args[0] != Placeholder;
      SubstituteWithoutPlaceholder(args[1..], stored);
    }
  }

  /** Omitting the arguments is the same as passing the marker alone, and is not
      the same as passing an explicit null. */
  lemma OmittedArgumentsMeanPlaceholder(stored: Value)
    ensures UnpipeArguments([], stored) == UnpipeArguments([Placeholder], stored) == [stored]
    ensures UnpipeArguments([VNull], stored) == [VNull]
  {
  }

  /** Every marker is consumed, unless the stored result is itself the marker
      (substitution is done once, not repeated). */
  lemma PlaceholderConsumed(args: seq<Value>, stored: Value)
    requires stored != Placeholder
    ensures Placeholder !in UnpipeArguments(args, stored)
  {
    if args != [] {
      forall k | 0 <= k < |args|
        ensures UnpipeArguments(args, stored)[k] != Placeholder
      {
        SubstituteAt(args, stored, k);
      }
    }
  }

  /** The stored result reaches the forwarded call exactly when the arguments
      were omitted, contain the marker, or already contain that value. */
  lemma StoredForwarded(args: seq<Value>, stored: Value)
    ensures stored in UnpipeArguments(args, stored)
        <==> (args == [] || Placeholder in args || stored in args)
  {
    if args != [] {
      var r := UnpipeArguments(args, stored);
      if stored in r {
        var k :| 0 <= k < |r| && r[k] == stored;
        SubstituteAt(args, stored, k);
        assert args[k] == Placeholder || args[k] == stored;
      }
      if Placeholder in args || stored in args {
        var k :| 0 <= k < |args| && (args[k] == Placeholder || args[k] == stored);
        SubstituteAt(args, stored, k);
        assert r[k] == stored;
      }
    }
  }

  /** Builds the argument list of `Unpipe`, rewriting each marker in turn. */
  method BindArguments(args: seq<Value>, stored: Value) returns (arguments: seq<Value>)
    ensures arguments == UnpipeArguments(args, stored)
  {
    if |args| == 0 {
      arguments := [stored];
    } else {
      arguments := args;
      var i := 0;
      while i < |arguments|
        invariant 0 <= i <= |arguments| == |args|
        invariant forall k :: 0 <= k < i ==> arguments[k] == Resolve(args[k], stored)
        invariant forall k :: i <= k < |args| ==> arguments[k] == args[k]
      {
        if arguments[i] == Placeholder {
          arguments := arguments[i := stored];
        }
        i := i + 1;
      }
      forall k | 0 <= k < |args|
        ensures arguments[k] == Substitute(args, stored)[k]
      {
        SubstituteAt(args, stored, k);
      }
    }
  }

  /** The behavior attached to `owner`, with its one stored result. */
  class PipeBehavior {
    const owner: Owner
    var result: Value

    constructor (owner: Owner)
      ensures this.owner == owner && result == VNull
    {
      this.owner := owner;
      result := VNull;
    }

    /** Calls `name` on the owner with `args`, keeps what it returns in place
        of any earlier result, and hands back the owner to continue the chain. */
    method Pipe(name: string, args: seq<Value>) returns (o: Owner)
      modifies this, owner
      ensures o == owner
      ensures result == owner.respond(old(owner.log), name, args)
      ensures owner.log == old(owner.log) + [Invocation(name, args, result)]
    {
      result := owner.Call(name, args);
      o := owner;
    }

    /** Calls `name` on the owner with the stored result substituted into
        `args`, forgets the stored result and returns what the call returned. */
    method Unpipe(name: string, args: seq<Value>) returns (r: Value)
      modifies this, owner
      ensures r == owner.respond(old(owner.log), name, UnpipeArguments(args, old(result)))
      ensures owner.log == old(owner.log) + [Invocation(name, UnpipeArguments(args, old(result)), r)]
      ensures result == VNull
    {
      var arguments := BindArguments(args, result);
      r := owner.Call(name, arguments);
      result := VNull;
    }
  }
}
