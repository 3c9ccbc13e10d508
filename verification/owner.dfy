/** The component a behavior is attached to, seen only through calls by name. */
module Owners {
  import opened Values

  /** The owner component. Which of its methods exist and what they compute is
      not known to the behavior: `respond` gives the value a call returns, and may
      depend on every call the owner has received before. `log` is that history. */
  class Owner {
    const respond: (seq<Invocation>, string, seq<Value>) -> Value
    var log: seq<Invocation>

    constructor (respond: (seq<Invocation>, string, seq<Value>) -> Value)
      ensures this.respond == respond && log == []
    {
      this.respond := respond;
      log := [];
    }

    /** Call the owner's method `name` with exactly `args`; the call is recorded. */
    method Call(name: string, args: seq<Value>) returns (r: Value)
      modifies this
      ensures r == respond(old(log), name, args)
      ensures log == old(log) + [Invocation(name, args, r)]
    {
      r := respond(log, name, args);
      log := log + [Invocation(name, args, r)];
    }
  }
}
