/**
 * The parts of a media entity the YouTube provider reads and writes. The entity is updated in
 * place through its setters, so it is a class; `MediaState` is a snapshot of its fields, used to
 * state what an operation leaves behind.
 */
module MediaEntity {
  import opened Wrappers
  import opened PhpArray

  /** The provider statuses the provider sets or starts from. */
  datatype Status = Pending | Ok | Error

  /**
   * A snapshot of the entity. Metadata fields hold the value the oEmbed answer gave, whatever its
   * type; `Null` is PHP's null.
   */
  datatype MediaState = MediaState(
    binaryContent: Option<string>,
    providerName: Option<string>,
    providerStatus: Status,
    providerReference: Option<string>,
    providerMetadata: map<string, Value>,
    enabled: bool,
    name: Value,
    authorName: Value,
    height: Value,
    width: Value,
    contentType: Option<string>)

  class Media {
    var binaryContent: Option<string>
    var providerName: Option<string>
    var providerStatus: Status
    var providerReference: Option<string>
    var providerMetadata: map<string, Value>
    var enabled: bool
    var name: Value
    var authorName: Value
    var height: Value
    var width: Value
    var contentType: Option<string>

    function State(): MediaState
      reads this
    {
      MediaState(binaryContent, providerName, providerStatus, providerReference, providerMetadata,
        enabled, name, authorName, height, width, contentType)
    }
  }
}
