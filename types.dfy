/** The values the message canister stores and returns. */
module Types {

  const UINT64_LIMIT: int := 0x1_0000_0000_0000_0000
  const UINT64_MAX: int := UINT64_LIMIT - 1

  /** Rust's `u64`. */
  type uint64 = x: int | 0 <= x < UINT64_LIMIT

  datatype Option<+T> = None | Some(value: T)

  datatype Result<+T, +E> = Ok(value: T) | Err(error: E)

  /** A stored record. The field name `attachementUrl` keeps the spelling of
      the Rust struct; the payload spells it `attachmentUrl`. */
  datatype Message = Message(
    id: uint64,
    title: string,
    body: string,
    attachementUrl: string,
    createdAt: uint64,
    updatedAt: Option<uint64>)

  /** What a caller supplies to create or update a record. */
  datatype MessagePayload = MessagePayload(title: string, body: string, attachmentUrl: string)

  /** `SerializationError` is part of the interface but no operation produces it. */
  datatype MyError = NotFound(msg: string) | SerializationError(msg: string)

  /** The envelope of the bulk read. */
  datatype ApiResponse<T> = ApiResponse(data: Option<T>, logs: seq<string>, error: Option<MyError>)
}
