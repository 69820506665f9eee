/**
 * The errors the lib package and the three stores return, with the text `err.Error()`
 * gives for each (the `%T`, `%d` and `%x` parts included). Errors passed through
 * from code outside the model (the file system, the mesh loader) carry their text.
 */
module Errors {
  import opened GoValues
  import opened Text
  import opened LibUUID
  import opened Wrappers

  datatype Error =
    | NotArray(got: string)
    | ArrowAtIndex(index: nat, cause: Error)
    | NotArrowObject(got: string)
    | MissingPose
    | BadPose(cause: Error)
    | NotPoseObject(got: string)
    | ParentFrameNotString(got: string)
    | BadColor(cause: Error)
    | NotColorObject(got: string)
    | BadUUID(uuidError: UUIDError)
    | UUIDNotFound(uuid: UUID)
    | TransformNotFound(id: seq<Byte>)
    | MeshSource(message: string)

  /**
   * `Message(e)` is `e.Error()`. For `UUIDNotFound` the `%x` verb is applied to a
   * `uuid.UUID`, which formats through its `String` method, so the text carries the hex
   * of the 36 characters of the text form (72 digits); `TransformNotFound` applies `%x`
   * to the raw bytes.
   */
  function Message(e: Error): string {
    match e
    case NotArray(got) => "Expected array of arrows, got " + got
    case ArrowAtIndex(i, cause) => "Failed to parse arrow at index " + NatToString(i) + ": " + Message(cause)
    case NotArrowObject(got) => "Expected arrow object, got " + got
    case MissingPose => "Missing required 'pose' field"
    case BadPose(cause) => "Failed to parse pose: " + Message(cause)
    case NotPoseObject(got) => "expected pose object, got " + got
    case ParentFrameNotString(got) => "Expected string for parent frame, got " + got
    case BadColor(cause) => "Failed to parse color: " + Message(cause)
    case NotColorObject(got) => "expected color object, got " + got
    case BadUUID(e) => ErrorMessage(e)
    case UUIDNotFound(u) => "transform not found for UUID: " + Hex(StringBytes(u))
    case TransformNotFound(id) => "transform not found for UUID: " + Hex(id)
    case MeshSource(message) => message
  }

  /**
   * The not-found text of the drawarrows and drawmesh stores: the prefix and then two
   * hex digits per character of the identity's text form, which decode back to the
   * characters' codes.
   */
  lemma UUIDNotFoundMessage(u: UUID)
    ensures var m := Message(UUIDNotFound(u));
      && |m| == 30 + 72
      && m[..30] == "transform not found for UUID: "
      && m[30..] == Hex(StringBytes(u))
      && DecodeHex(m[30..]) == Some(StringBytes(u))
  {
    DecodeHexOfHex(StringBytes(u));
  }
}
