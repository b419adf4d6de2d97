/** The metadata records the controller generator produces, and its error kind. */
module Tsoa {
  import opened Wrappers

  /**
   * A value the type checker evaluates a decorator argument to: `undefined`,
   * `null`, a string, a number (integers only), a boolean or some object.
   */
  datatype Value = Undefined | Null | Str(s: string) | Num(n: int) | Bool(b: bool) | Object(handle: nat)

  /** JavaScript truthiness of a value. */
  predicate Truthy(v: Value) {
    match v
    case Undefined => false
    case Null => false
    case Str(s) => s != ""
    case Num(n) => n != 0
    case Bool(b) => b
    case Object(_) => true
  }

  /** A resolved type description produced by the type resolver. */
  datatype Schema = Schema(handle: nat)

  /** A security requirement: scheme name to scopes. */
  type Security = map<string, seq<string>>

  /** One response a controller shares with all of its methods. */
  datatype Response = Response(
    name: Value,
    description: Value,
    examples: Option<seq<Value>>,
    schema: Option<Schema>,
    headers: Option<map<string, Schema>>)

  /** The record the method generator produces for one method. */
  datatype MethodIR = MethodIR(handle: nat)

  /** The controller record. */
  datatype Controller = Controller(
    location: string,
    methods: seq<MethodIR>,
    name: string,
    path: string,
    newInstancePerRequest: bool,
    extendsController: bool)

  /**
   * A thrown metadata-generation error with its message, or the TypeError
   * raised when an error message reads the name of an unnamed class.
   */
  datatype Error = GenerateMetadataError(message: string) | NameTextTypeError
}
