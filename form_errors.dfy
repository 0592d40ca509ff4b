/**
 * The `errors` state both authentication forms keep: a record from field name
 * to message, where the empty string means "no error". The server may add
 * keys of its own, so it is a map rather than a fixed record.
 */
module FormErrors {
  import opened Options

  type Errors = map<string, string>

  /** `errors[key]`, with `None` for JavaScript's `undefined`. */
  function Lookup(errors: Errors, key: string): Option<string> {
    if key in errors then Some(errors[key]) else None
  }

  /** `errors[key]` is truthy: present and non-empty. */
  predicate HasError(errors: Errors, key: string) {
    key in errors && errors[key] != ""
  }

  /**
   * The error update of `handleChange`: `{...errors, [key]: ""}` when
   * `errors[key]` is truthy, the same object otherwise.
   */
  function ClearError(errors: Errors, key: string): (r: Errors)
    ensures r.Keys == errors.Keys
    ensures !HasError(r, key)
    ensures key in errors ==> r[key] == ""
    ensures forall k :: k != key ==> Lookup(r, k) == Lookup(errors, k)
    ensures !HasError(errors, key) ==> r == errors
  {
    if HasError(errors, key) then errors[key := ""] else errors
  }

  /** The spread `{...base, ...top}`: every key of `top` wins, the rest of `base` stays. */
  function Overlay(base: Errors, top: Errors): (r: Errors)
    ensures r.Keys == base.Keys + top.Keys
    ensures forall k :: k in top ==> r[k] == top[k]
    ensures forall k :: k !in top ==> Lookup(r, k) == Lookup(base, k)
  {
    base + top
  }

  /** One step of `validate`: a failed check writes its message, a passed check leaves the entry alone. */
  function Record(errors: Errors, key: string, check: Option<string>): Errors {
    if check.Some? then errors[key := check.value] else errors
  }
}
