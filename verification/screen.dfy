/** What the management screens have in common: the transient notification a
    handler raises, and the record of what a handler did — the list it leaves
    on screen and the request it sent, if it sent one. */
module Screen {
  import opened Wrappers
  import opened ApiClient

  /** A toast: `toast.success(message)` or `toast.error(message)`. */
  datatype Notice = Success(message: string) | Failure(message: string)

  /** The list a handler leaves on screen, the request it issued (`None`
      when a guard stopped it before any call) and the toast it raised. */
  datatype Handled<T, B> = Handled(items: seq<T>, sent: Option<Call<B>>, notice: Option<Notice>)
}
