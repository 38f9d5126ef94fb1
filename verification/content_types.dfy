/** Well-known MIME type constants. */
module ContentTypes {

  /** The JSON media type. */
  const Json: string := "application/json"
}
