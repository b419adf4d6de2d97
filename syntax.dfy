/**
 * The part of a TypeScript class declaration that the controller generator
 * looks at: its name, the source file it sits in, its class-level decorators,
 * its members and the class it extends.
 */
module Syntax {
  import opened Wrappers

  /** A type-argument node, e.g. the `T` of `@Response<T>(...)`; its meaning is left to the type resolver. */
  datatype TypeNode = TypeNode(handle: nat)

  /**
   * An argument expression of a decorator call. `text` is the node's `.text`
   * property: present for literal and identifier nodes, absent otherwise;
   * `expr` identifies the expression node itself, so that arguments with the
   * same text (or none, such as two different array literals) stay distinct.
   */
  datatype Arg = Arg(text: Option<string>, expr: nat)

  /** A class-level decorator `@name<typeArgs>(args)`. */
  datatype Decorator = Decorator(name: string, args: seq<Arg>, typeArgs: seq<TypeNode>)

  /**
   * A class member. A method declaration carries the escaped text of its name
   * when that name is a plain identifier (`None` stands for string-literal,
   * computed and private names) and its declaration node `decl`, so that an
   * overload signature and its implementation are different members.
   */
  datatype Member = MethodMember(identName: Option<string>, decl: nat) | OtherMember

  /**
   * The first type of the class's `extends` clause: none, a class declaration,
   * or some other expression (which ends the walk up the chain).
   */
  datatype Heritage = NoExtends | ExtendsClass(base: ClassDecl) | ExtendsOther

  /**
   * `sourceFile` is `None` when the node has no parent, otherwise the file
   * name of the parent's source file.
   */
  datatype ClassDecl = ClassDecl(
    name: Option<string>,
    sourceFile: Option<string>,
    decorators: seq<Decorator>,
    members: seq<Member>,
    heritage: Heritage)
}
