/** The JDBC side of the model: Java references that may be null, the
    exceptions a JDBC call can raise, and the wrapped statement and its
    connection as scripted oracles whose answers are fixed by a test. */
module Jdbc {

  datatype Option<+T> = None | Some(value: T)

  /** A Java `String` reference; `None` is `null`. */
  type JString = Option<string>

  /** What `StringBuilder.append(String)` writes for a possibly null string. */
  function Text(s: JString): string {
    match s
    case None => "null"
    case Some(v) => v
  }

  /** The throwables the proxy distinguishes: `createEvent` swallows only
      `SQLException`; every other kind escapes from it. */
  datatype Thrown =
    | SQLException(message: string)
    | RuntimeException(message: string)
    | NullPointerException

  /** One scripted answer of the delegate: it returns a value or throws. */
  datatype Reply<+T> = Returns(value: T) | Throws(error: Thrown)

  /** The delegate's runtime class, as `getClass()` reports it. */
  datatype ClassRef = ClassRef(name: string)

  /** A result set produced by the delegate (opaque). */
  datatype Cursor = Cursor(handle: int)

  /** The delegate's owning connection: its identity hash and its scripted
      answer to `getAutoCommit()`. */
  datatype Connection = Connection(identity: int, autoCommit: Reply<bool>)

  /** `System.identityHashCode` of a possibly null connection (0 for null). */
  function IdentityHash(c: Option<Connection>): int {
    match c
    case None => 0
    case Some(con) => con.identity
  }

  /** The wrapped JDBC statement. Its identity hash and runtime class are
      fixed; its answers to the metadata reads the proxy makes are scripted
      and may be changed by a client between calls. */
  class ScriptedStatement {
    const identity: int
    const runtimeClass: ClassRef
    var poolable: Reply<bool>
    var closed: Reply<bool>
    var connection: Reply<Option<Connection>>

    constructor (identity: int, runtimeClass: ClassRef, poolable: Reply<bool>,
                 closed: Reply<bool>, connection: Reply<Option<Connection>>)
      ensures this.identity == identity && this.runtimeClass == runtimeClass
      ensures this.poolable == poolable && this.closed == closed
      ensures this.connection == connection
    {
      this.identity := identity;
      this.runtimeClass := runtimeClass;
      this.poolable := poolable;
      this.closed := closed;
      this.connection := connection;
    }
  }

  /** A snapshot of what a non-null delegate answers to the metadata reads. */
  datatype Target = Target(
    runtimeClass: ClassRef,
    poolable: Reply<bool>,
    closed: Reply<bool>,
    connection: Reply<Option<Connection>>)

  /** The current answers of a possibly null delegate. */
  function View(s: ScriptedStatement?): Option<Target>
    reads s
  {
    if s == null then None
    else Some(Target(s.runtimeClass, s.poolable, s.closed, s.connection))
  }
}
