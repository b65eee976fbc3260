/**
 * What the schema builder reads off a model class by reflection (`dataclasses.fields`,
 * `typing.get_type_hints`, `__table__`, `__fkeys__`), as plain data.
 */
module Dataclass {
  import opened Results
  import opened Values

  /** The classes an annotation can name; the first eight are the keys of the driver's type table. */
  datatype PyClass =
    | IntClass | BoolClass | FloatClass | StrClass | BytesClass
    | DatetimeClass | DateClass | TimeClass
    | NoneClass
    | OtherClass(name: string)

  /**
   * A resolved annotation. `Plain` has no `typing.get_origin`; `Union` is `typing.Union[...]` or
   * `X | Y` (both origins are treated alike); `Generic` is any other parameterised alias.
   */
  datatype PyType =
    | Plain(cls: PyClass)
    | Union(members: seq<PyType>)
    | Generic(origin: string, args: seq<PyType>)

  datatype FieldDesc = FieldDesc(name: string, annotation: PyType)

  /** One `__fkeys__` entry: referenced table, referenced column, ON DELETE action. */
  datatype FKey = FKey(refTable: string, refColumn: string, onDelete: string)

  /**
   * A model class: whether it is a dataclass, its `__table__` (None when missing), its fields in
   * declaration order and its `__fkeys__` (empty when missing or None).
   */
  datatype ModelDesc = ModelDesc(isDataclass: bool, table: Option<string>, fields: seq<FieldDesc>, fkeys: map<string, FKey>)

  function ClassOf(k: Kind): PyClass
  {
    match k
    case IntKind => IntClass
    case TextKind => StrClass
    case StampKind => DatetimeClass
  }

  /** The annotation `c | None`. */
  function Optional(c: PyClass): PyType
  {
    Union([Plain(c), Plain(NoneClass)])
  }

  /** The descriptor of a dataclass whose fields are all annotated `X | None`. */
  function Describe(table: string, fields: seq<(string, Kind)>, fkeys: map<string, FKey>): ModelDesc
  {
    ModelDesc(true, Some(table),
      seq(|fields|, k requires 0 <= k < |fields| => FieldDesc(fields[k].0, Optional(ClassOf(fields[k].1)))),
      fkeys)
  }
}
