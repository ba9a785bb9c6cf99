/**
 * The value domain of the scraper: the Python dictionaries, strings and
 * exceptions that the car-details spider passes around, as Dafny datatypes.
 */
module Values {

  datatype Option<+T> = None | Some(value: T)

  datatype Result<+T, +E> = Ok(value: T) | Err(error: E)

  /** A dictionary key: a Python string, or Python's `None` (the id of a tab
      link that carries no `id` attribute). */
  datatype Key = Name(name: string) | NoneKey

  /** The JSON-like values a car record holds. */
  datatype Value =
    | Null
    | Text(text: string)
    | Dict(entries: map<Key, Value>)

  /** The Python exceptions that can escape a spider callback. */
  datatype Error =
    | KeyError(key: Key)
    | AttributeError
    | TypeError
}
