/** Shared vocabulary of the backend model: document ids, optional values,
    opaque JSON payloads and the outcome of a request handler. */
module Common {

  /** A MongoDB ObjectId; only equality matters. */
  type Id = nat

  /** A value that may be absent (`undefined`/`null` in the request or document). */
  datatype Option<T> = None | Some(value: T) {
    function GetOr(default: T): T {
      match this
      case Some(v) => v
      case None => default
    }
  }

  /** A free-form Mixed/Object field (content blobs, styles, config, customData, design),
      kept as its serialised text: the handlers only copy or replace it. */
  datatype Blob = Blob(json: string)

  const EmptyObject: Blob := Blob("{}")

  /** Why a handler did not succeed. The first five are the statuses the handlers set with
      `res.status(...)`; the last three are errors raised by the persistence layer or the
      runtime, whose HTTP status is chosen by errorMiddleware.js (not part of this model). */
  datatype Failure =
    | BadRequest      // 400
    | Unauthorized    // 401
    | Forbidden       // 403
    | NotFound        // 404
    | ServerError     // 500
    | Invalid         // a schema validator rejected the save
    | Duplicate       // a unique index rejected the insert or update
    | Crash           // an uncaught TypeError (a property read on a missing document)

  datatype Result<T> = Ok(value: T) | Err(failure: Failure)

  /** A listing in the opposite order: the store keeps documents in creation
      order, so `.sort({ createdAt: -1 })` is the reversal. */
  function Reverse<T>(s: seq<T>): (r: seq<T>)
    ensures |r| == |s|
    ensures forall i :: 0 <= i < |s| ==> r[i] == s[|s| - 1 - i]
  {
    if s == [] then [] else Reverse(s[1..]) + [s[0]]
  }
}
