/** The shapes in which HTTP traffic reaches the extension once the network,
    the HTML parser and the form decoder are abstracted away. */
module Http {
  import opened Wrappers

  /** The only status the extension treats as success. */
  const StatusOk := 200

  /** One decoded value of a form field. The form decoder drops blank values,
      so a decoded value is never empty. */
  type FieldValue = v: string | v != "" witness "x"

  /** All decoded values of one form field; the decoder only lists a field
      that has at least one value. */
  type FieldValues = vs: seq<FieldValue> | |vs| > 0 witness ["x"]

  /** A decoded `application/x-www-form-urlencoded` body. */
  type FormData = map<string, FieldValues>

  /** A reply to a POST: its status and its body decoded as a form. */
  datatype Reply = Reply(status: int, form: FormData)

  /** An outgoing request, as issued. A POST body maps each field to its value,
      or to `None` when the program passed Python's `None` for it. */
  datatype Request =
    | Get(url: string)
    | Post(url: string, body: map<string, Option<string>>)

  /** Exceptions the program lets escape.
      MissingHref: the first `<link>` with a wanted rel has no `href` attribute.
      MissingUrl: the program hands `None` to the HTTP client as a URL. */
  datatype Fault = MissingHref(rel: string) | MissingUrl

  /** Python truthiness of an optional string: present and non-empty. */
  predicate Truthy(s: Option<string>) {
    s.Some? && s.value != ""
  }

  /** `form.get(key)`: the values of a field, or `None` when it is absent. */
  function Field(form: FormData, key: string): Option<FieldValues>
  {
    if key in form then Some(form[key]) else None
  }
}
