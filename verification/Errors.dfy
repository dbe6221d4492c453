/** The structured errors of name resolution, typing and evaluation; wording and stable codes are dropped. */
module Errors {
  import opened Types
  import opened Ast

  datatype CmpOp = CmpEq | CmpNe | CmpLt | CmpGt | CmpLe | CmpGe | CmpMatch

  datatype TypeError =
    | UnknownColumn(name: string)
    | NotExpandable(field: string, ty: ColumnType)
    | IncomparableTypes(op: CmpOp, lhs: ColumnType, rhs: ColumnType)

  datatype DomainReason =
    | Overflow | DivideByZero | IntegerDivision | UnsupportedOperator | UnsupportedExpression
    | EmptyPath | NotCallable | BuiltinReason(reason: string)

  datatype FnError =
    | UnknownFunction(name: string)
    | Arity(name: string, expected: nat, found: nat)
    | AggregateOutsideAggregate(name: string)
    | ScalarInAggregate(name: string)
    | Domain(name: string, why: DomainReason)
    | WrongType(name: string)

  datatype ResolveError =
    | UnknownDriver(driver: string)
    | UnknownProcedure(driver: string, name: string)
    | ArityMismatch(qualified: string, expected: nat, found: nat)
    | UnknownArg(qualified: string, arg: string)
    | AliasNotProvided(name: string, driver: string)
    | AmbiguousAlias(name: string)
    | UnknownReceiver(name: string)
    | UnknownBinding(name: string)
    | UnsupportedVerb(path: string, verb: EffectVerb)

  datatype HostScopeError =
    | MissingHost(path: string)
    | RemoteHostNotExecutable(host: string, path: string)
    | CrossRealm(realm: string, path: string)
    | RetiredBarePath(path: string, canonical: string)

  datatype EvalError =
    | Resolve(resolve: ResolveError)
    | Type(ty: TypeError)
    | Fn(fn: FnError)
    | UnroutedPath(path: string)
    | HostScope(host: HostScopeError)
    | SelectionNotLowered(address: PathExpr)
    | NonLiteralValues
    | DriverWrite(detail: string)
    | WriteFilterUnsupported(path: string)
    | IrreversibleInTransaction
    | LambdaArity(expected: nat, found: nat)
    | NotAFunction
    | UnknownTypeAnnotation(token: string)
    | TransformNotExecutable(name: string)
    | TransformInputMissing(name: string, column: string)
    | SwitchNotTerminal
    | FollowOutsideDeclaredBody
    | PostOutsideDeclaredBody
    | SwitchShape
    | SwitchDiscriminantUnknown(column: string)
    | SwitchArmNotEffect
    | SwitchArmOpUnsupported
    | OfTypeUnresolved(name: string)
    | OfAssertionFailed
}
