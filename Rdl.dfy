/**
 * The parts of an RDL schema the Java schema generator reads: type definitions,
 * resources, and the type registry. Only the fields the generator uses are kept.
 */
module Rdl {
  import opened Wrappers

  newtype int32 = x: int | -0x8000_0000 <= x < 0x8000_0000
  newtype int64 = x: int | -0x8000_0000_0000_0000 <= x < 0x8000_0000_0000_0000

  /** The built-in base types of RDL. */
  datatype BaseType =
    | Bool | Int8 | Int16 | Int32 | Int64 | Float32 | Float64
    | Bytes | String | Timestamp | Symbol | UUID
    | Array | Map | Struct | Enum | Union | Any

  /** The name a base type prints as. */
  function BaseTypeName(b: BaseType): string {
    match b
    case Bool => "Bool"
    case Int8 => "Int8"
    case Int16 => "Int16"
    case Int32 => "Int32"
    case Int64 => "Int64"
    case Float32 => "Float32"
    case Float64 => "Float64"
    case Bytes => "Bytes"
    case String => "String"
    case Timestamp => "Timestamp"
    case Symbol => "Symbol"
    case UUID => "UUID"
    case Array => "Array"
    case Map => "Map"
    case Struct => "Struct"
    case Enum => "Enum"
    case Union => "Union"
    case Any => "Any"
  }

  /**
   * A numeric value of one of the primitive numeric types. Floating point values
   * are carried by the decimal text Go prints for them.
   */
  datatype Number =
    | NInt8(i8: int)
    | NInt16(i16: int)
    | NInt32(i32: int32)
    | NInt64(i64: int64)
    | NFloat32(f32Text: string)
    | NFloat64(f64Text: string)

  datatype StringTypeDef = StringTypeDef(
    name: string,
    comment: string,
    pattern: string,
    minSize: Option<int32>,
    maxSize: Option<int32>)

  /** `numType` is the name of the numeric base type (`Int32`, `Float64`, ...). */
  datatype NumberTypeDef = NumberTypeDef(
    name: string,
    numType: string,
    comment: string,
    min: Option<Number>,
    max: Option<Number>)

  datatype EnumElementDef = EnumElementDef(symbol: string, comment: string)

  datatype EnumTypeDef = EnumTypeDef(name: string, comment: string, elements: seq<EnumElementDef>)

  datatype UnionTypeDef = UnionTypeDef(name: string, comment: string, variants: seq<string>)

  /**
   * A field of a struct. A default value is carried by the text `fmt.Sprint`
   * prints for it.
   */
  datatype StructFieldDef = StructFieldDef(
    name: string,
    fieldType: string,
    optional: bool,
    comment: string,
    items: string,
    keys: string,
    default: Option<string>)

  /** `superType` is the type the struct extends; `Struct` when it extends none. */
  datatype StructTypeDef = StructTypeDef(
    name: string,
    superType: string,
    comment: string,
    fields: seq<StructFieldDef>)

  /** A type definition, by variant. Map, array, bytes and alias definitions contribute only their names. */
  datatype Type =
    | BaseTypeT(baseType: BaseType)
    | StructT(structDef: StructTypeDef)
    | MapT(name: string)
    | ArrayT(name: string)
    | EnumT(enumDef: EnumTypeDef)
    | UnionT(unionDef: UnionTypeDef)
    | StringT(stringDef: StringTypeDef)
    | BytesT(name: string)
    | NumberT(numberDef: NumberTypeDef)
    | AliasT(name: string)
    | UnknownVariant(variantText: string)

  /** The schema's types by name. */
  type TypeRegistry = map<string, Type>

  function FindType(reg: TypeRegistry, name: string): (r: Option<Type>)
    ensures r.Some? <==> name in reg
    ensures r.Some? ==> r.value == reg[name]
  {
    if name in reg then Some(reg[name]) else None
  }

  /**
   * An input of a resource: a path parameter, a query parameter (`queryParam` is
   * the parameter's name in the URL), a header (`header` is the header name), or
   * else the request body.
   */
  datatype ResourceInput = ResourceInput(
    name: string,
    inputType: string,
    comment: string,
    pathParam: bool,
    queryParam: string,
    header: string,
    default: Option<string>)

  datatype ResourceOutput = ResourceOutput(name: string, outputType: string, header: string, comment: string)

  datatype ResourceAuth = ResourceAuth(authenticate: bool, action: string, resource: string, domain: string)

  datatype ExceptionDef = ExceptionDef(exceptionType: string, comment: string)

  datatype Resource = Resource(
    resourceType: string,
    httpMethod: string,
    path: string,
    comment: string,
    inputs: seq<ResourceInput>,
    outputs: seq<ResourceOutput>,
    auth: Option<ResourceAuth>,
    expected: string,
    exceptions: map<string, ExceptionDef>,
    async: Option<bool>,
    name: string)

  /** The schema-level values the generated class header reads. */
  datatype Schema = Schema(name: string, version: Option<int32>, namespace: string, comment: string)
}
