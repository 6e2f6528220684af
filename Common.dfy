/** Values shared by every part of the storefront model: optional values, the
    settled outcome of an awaited network call, and the metadata document kept
    on content-addressed storage. */
module Common {

  datatype Option<+T> = None | Some(value: T)

  /** What a JavaScript `catch` clause receives: an `Error` instance, which
      carries a message, or any other thrown value. */
  datatype Thrown = ErrorValue(message: string) | OtherValue

  /** The settled result of one awaited call (a fetch and its JSON parse, a
      contract read): the payload it produced, or what it threw. */
  datatype Outcome<+T> = Ok(value: T) | Err(thrown: Thrown)

  /** A parsed metadata document as the storefront sees it. `NullDoc` is a
      body that parsed to JSON `null`, on which reading a property throws.
      `Doc` stands for any other parsed value; `imageUrl` is its `imageUrl`
      property, `None` when the property is absent (JavaScript `undefined`).
      The remaining properties (name, description, location, supply, online
      flag) are only displayed and are not part of this model. */
  datatype MetadataDoc = NullDoc | Doc(imageUrl: Option<string>)

  /** Gateway through which every metadata pointer is fetched. */
  const IpfsGateway: string := "https://anky.mypinata.cloud/ipfs/"

  /** The URL requested for one metadata pointer. */
  function MetadataUrl(pointer: string): string
  {
    IpfsGateway + pointer
  }
}
