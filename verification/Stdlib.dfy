/** The function registry: what a built-in's signature and kind tell the evaluator and the checker. */
module Stdlib {
  import opened Wrappers
  import opened Types
  import opened Errors

  datatype HigherOrderKind = MapKind | FilterKind | ReduceKind

  datatype FnSig = FnSig(minArgs: nat, maxArgs: Option<nat>, resultType: ColumnType, argTypes: seq<Option<ColumnType>>)
  {
    predicate AcceptsArity(argc: nat) {
      argc >= minArgs && (maxArgs.None? || argc <= maxArgs.value)
    }
  }

  /** A built-in. The higher-order three carry no signature of their own: their kind fixes it. */
  datatype Builtin =
    | Scalar(sig: FnSig, eval: seq<Value> -> Result<Value, FnError>)
    | AggregateFn(sig: FnSig)
    | TableValued(sig: FnSig)
    | HigherOrder(kind: HigherOrderKind)
  {
    /** `map` and `filter` take exactly two arguments, `reduce` two or three. */
    function Sig(): FnSig {
      match this
      case Scalar(s, _) => s
      case AggregateFn(s) => s
      case TableValued(s) => s
      case HigherOrder(MapKind) => FnSig(2, Some(2), TArray(TUnknown), [])
      case HigherOrder(FilterKind) => FnSig(2, Some(2), TArray(TUnknown), [])
      case HigherOrder(ReduceKind) => FnSig(2, Some(3), TUnknown, [])
    }
  }

  /** Lookups of the registry: core built-ins by surface name, and whether a driver ships an alias. */
  datatype Functions = Functions(builtin: string -> Option<Builtin>, hasAlias: string -> bool)
}
