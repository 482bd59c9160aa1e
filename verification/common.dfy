/** Small shared definitions. */
module Common {

  /** An optional value; `None` stands for JavaScript's `undefined` where the
      model needs one. */
  datatype Option<+T> = None | Some(value: T)
}

/** The URI-component codec the query-string helpers rely on. The model does
    not define percent-encoding: the codec is a value handed to every
    operation, so every property is proved for all codecs (or for every codec
    meeting a stated condition). */
module UriComponent {
  import opened Common

  /** `encode` is `encodeURIComponent`; `decode` is `window.decodeURIComponent`,
      returning `None` where it would throw a URIError; `isClient` is the
      `IS_CLIENT` flag (false outside a browser). */
  datatype Codec = Codec(isClient: bool, encode: string -> string, decode: string -> Option<string>)

  /** `tryDecodeURIComponent(component, fallback)`: the decoded text, or the
      fallback outside a browser or when decoding fails. */
  function TryDecode(c: Codec, component: string, fallback: string): (r: string)
    ensures r == fallback || (c.isClient && c.decode(component) == Some(r))
    ensures c.isClient && c.decode(component).Some? ==> r == c.decode(component).value
    ensures !c.isClient ==> r == fallback
  {
    if !c.isClient then fallback
    else match c.decode(component)
      case Some(d) => d
      case None => fallback
  }
}
