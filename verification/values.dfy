/** PHP values as they travel through a forwarded method call. */
module Values {

  /** A PHP value. Objects other than the owner are known only by an identity,
      so that PHP's `===` on two values is Dafny's `==` on two `Value`s. */
  datatype Value =
    | VNull
    | VBool(b: bool)
    | VInt(i: int)
    | VStr(s: string)
    | VArr(elems: seq<Value>)
    | VObj(id: nat)

  /** One call made on the owner: the method name, the arguments it received
      and the value it returned. */
  datatype Invocation = Invocation(name: string, args: seq<Value>, returned: Value)
}
