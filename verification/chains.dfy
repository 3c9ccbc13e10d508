/** Call chains built from `Pipe` and `Unpipe`, as a client of the behavior sees them. */
module Chains {
  import opened Values
  import opened Owners
  import opened Pipe

  /** `pipe(m, args)->unpipe(n)`: `n` receives exactly the value `m` returned. */
  method PipeThenUnpipe(b: PipeBehavior, m: string, args: seq<Value>, n: string)
    returns (o: Owner, r: Value)
    modifies b, b.owner
    ensures o == b.owner && b.result == VNull
    ensures |b.owner.log| == |old(b.owner.log)| + 2
    ensures b.owner.log[..|old(b.owner.log)|] == old(b.owner.log)
    ensures b.owner.log[|old(b.owner.log)|] == Invocation(m, args, b.owner.log[|old(b.owner.log)|].returned)
    ensures b.owner.log[|old(b.owner.log)| + 1] == Invocation(n, [b.owner.log[|old(b.owner.log)|].returned], r)
  {
    o := b.Pipe(m, args);
    r := b.Unpipe(n, []);
  }

  /** Two pipes in a row: only the second result is fed to the unpipe. */
  method PipeTwiceThenUnpipe(b: PipeBehavior, m1: string, a1: seq<Value>, m2: string, a2: seq<Value>, n: string)
    returns (r: Value)
    modifies b, b.owner
    ensures |b.owner.log| == |old(b.owner.log)| + 3
    ensures b.owner.log[..|old(b.owner.log)|] == old(b.owner.log)
    ensures b.owner.log[|old(b.owner.log)|].name == m1 && b.owner.log[|old(b.owner.log)|].args == a1
    ensures b.owner.log[|old(b.owner.log)| + 1].name == m2 && b.owner.log[|old(b.owner.log)| + 1].args == a2
    ensures b.owner.log[|old(b.owner.log)| + 2] == Invocation(n, [b.owner.log[|old(b.owner.log)| + 1].returned], r)
    ensures b.result == VNull
  {
    var _ := b.Pipe(m1, a1);
    var _ := b.Pipe(m2, a2);
    r := b.Unpipe(n, []);
  }

  /** An unpipe right after another unpipe (or before any pipe) passes null. */
  method UnpipeTwice(b: PipeBehavior, m: string, args: seq<Value>, n: string)
    returns (r1: Value, r2: Value)
    modifies b, b.owner
    ensures |b.owner.log| == |old(b.owner.log)| + 2
    ensures b.owner.log[|old(b.owner.log)| + 1] == Invocation(n, [VNull], r2)
    ensures b.result == VNull
  {
    r1 := b.Unpipe(m, args);
    r2 := b.Unpipe(n, []);
  }
}
