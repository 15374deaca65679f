/**
 * `merge_values`: a variadic argument list turned into the `Value`
 * sequence a statement is executed with.
 */
module Merge {
  import opened Native
  import opened Values

  /**
   * One argument, by its C++ type: `int` literals, 64-bit signed and
   * unsigned integers, doubles, C strings and `std::string`, `std::tm`,
   * and anything that already is a `Value` (a nullable, say).
   */
  datatype Arg =
    | IntArg(i: int32)
    | LongArg(l: int64)
    | UnsignedArg(u: uint64)
    | DoubleArg(d: Float64)
    | CStringArg(chars: string)
    | StringArg(s: string)
    | TmArg(t: Tm)
    | ValueArg(v: Value)

  /** The `Value` alternative `push_back` converts an argument to. */
  function ArgToValue(a: Arg): Value {
    match a
    case IntArg(i) => Int64(i)
    case LongArg(l) => Int64(l)
    case UnsignedArg(u) => UInt64(u)
    case DoubleArg(d) => Double(d)
    case CStringArg(chars) => Str(chars)
    case StringArg(s) => Str(s)
    case TmArg(t) => TmVal(t)
    case ValueArg(v) => v
  }

  /** One value per argument, in argument order. */
  function Merged(args: seq<Arg>): (values: seq<Value>)
    ensures |values| == |args|
    ensures forall i :: 0 <= i < |args| ==> values[i] == ArgToValue(args[i])
    decreases |args|
  {
    if |args| == 0 then [] else Merged(args[..|args| - 1]) + [ArgToValue(args[|args| - 1])]
  }

  /** `merge_values`: each argument pushed onto the vector in turn. */
  method MergeValues(args: seq<Arg>) returns (values: seq<Value>)
    ensures values == Merged(args)
  {
    values := [];
    var i := 0;
    while i < |args|
      invariant 0 <= i <= |args|
      invariant values == Merged(args[..i])
    {
      assert args[..i + 1][..i] == args[..i];
      values := values + [ArgToValue(args[i])];
      i := i + 1;
    }
    assert args[..i] == args;
  }

  /** No arguments give no values; one more trailing argument appends exactly one value. */
  lemma MergedAppend(args: seq<Arg>, a: Arg)
    ensures Merged([]) == []
    ensures Merged(args + [a]) == Merged(args) + [ArgToValue(a)]
  {
    assert (args + [a])[..|args|] == args;
  }

  /** `merge_values(1, 2, 3, "test", tm)` gives three integers, a string and the tm. */
  lemma MergeExample(tm: Tm)
    ensures Merged([IntArg(1), IntArg(2), IntArg(3), CStringArg("test"), TmArg(tm)])
         == [Int64(1), Int64(2), Int64(3), Str("test"), TmVal(tm)]
  {
  }
}
