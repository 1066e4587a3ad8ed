/** Outcomes of the request handlers once rendering and redirects are abstracted:
    a lookup either finds what it asked for or ends in an HTTP 404. */
module Results {

  datatype Option<+T> = None | Some(value: T)

  /** `get_object_or_404` either yields a value or raises Http404. */
  datatype Result<+T> = Ok(value: T) | NotFound
}
