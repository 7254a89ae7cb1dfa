/** The Java values the two state lists handle: bytes, references that may be
    null, the exceptions they throw or catch, and how a call completes. */
module Java {

  /** A Java `byte`: a signed eight-bit integer. */
  newtype byte = b: int | -128 <= b < 128

  /** A Java `byte[]` that is not null. */
  type Bytes = seq<byte>

  /** A Java reference that may be null. */
  datatype Nullable<+T> = Null | Ref(get: T)

  /** The exceptions raised, caught or let through by the state lists. The
      two ledger API exceptions are the repository's own classes; `Failure`
      stands for any other exception thrown by code outside this model. */
  datatype Exc =
    | NullPointer(detail: Nullable<string>)
    | IllegalArgument(message: string)
    | LedgerApiNoData(message: string)
    | LedgerApi(message: string, cause: Exc)
    | Failure(name: string)

  /** How a Java call completes: it returns a value or throws. */
  datatype Outcome<+T> = Return(value: T) | Throw(exc: Exc)

  /** The exception the JVM raises when code dereferences null; it carries
      no message. `new String(data, UTF_8)` raises it when `data` is null. */
  const NullDeref: Exc := NullPointer(Null)
}
