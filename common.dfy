/** Values shared by every service: optional values, results that carry a
    Python exception instead of a return value, and JSON objects read with
    `dict.get(key, default)`. */
module Common {

  datatype Option<+T> = None | Some(value: T)

  datatype Result<+T, +E> = Ok(value: T) | Err(error: E)

  /** The Python exceptions the modelled code can raise on its own. */
  datatype PyError =
    | KeyError   // `{}[-1]`: the metadata has no "collection"
    | IndexError // `[][-1]`, `[][0]`: the collection is empty

  /** A JSON object whose values are strings (a bioRxiv metadata entry, the
      dictionary returned by a text fetch). */
  type Dict = map<string, string>

  /** `d.get(key, default)`. */
  function GetOr(d: Dict, key: string, default: string): (r: string)
    ensures key in d ==> r == d[key]
    ensures key !in d ==> r == default
  {
    if key in d then d[key] else default
  }
}
