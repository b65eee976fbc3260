/** SQL's three-valued logic: every comparison with NULL is UNKNOWN, and WHERE keeps a row only when TRUE. */
module Sql {
  import opened Results

  datatype Truth = IsTrue | IsFalse | IsUnknown

  function FromBool(b: bool): Truth
  {
    if b then IsTrue else IsFalse
  }

  function And(a: Truth, b: Truth): Truth
  {
    if a == IsFalse || b == IsFalse then IsFalse
    else if a == IsTrue && b == IsTrue then IsTrue
    else IsUnknown
  }

  function Or(a: Truth, b: Truth): Truth
  {
    if a == IsTrue || b == IsTrue then IsTrue
    else if a == IsFalse && b == IsFalse then IsFalse
    else IsUnknown
  }

  function Not(a: Truth): Truth
  {
    match a
    case IsTrue => IsFalse
    case IsFalse => IsTrue
    case IsUnknown => IsUnknown
  }

  /** `a = b` on nullable integers. */
  function EqInt(a: Option<int>, b: Option<int>): Truth
  {
    if a.None? || b.None? then IsUnknown else FromBool(a.value == b.value)
  }

  /** `a <> b` on nullable integers. */
  function NeInt(a: Option<int>, b: Option<int>): Truth
  {
    if a.None? || b.None? then IsUnknown else FromBool(a.value != b.value)
  }

  /** `a <> b` on nullable texts. */
  function NeText(a: Option<string>, b: Option<string>): Truth
  {
    if a.None? || b.None? then IsUnknown else FromBool(a.value != b.value)
  }

  /** `a <= b` on nullable timestamps. */
  function Le(a: Option<int>, b: Option<int>): Truth
  {
    if a.None? || b.None? then IsUnknown else FromBool(a.value <= b.value)
  }

  /** `a >= b` on nullable timestamps. */
  function Ge(a: Option<int>, b: Option<int>): Truth
  {
    if a.None? || b.None? then IsUnknown else FromBool(a.value >= b.value)
  }
}
