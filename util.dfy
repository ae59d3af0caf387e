/**
 * `Util.SetValue`: change-only assignment. The storage is written and the
 * callback invoked only when the new value differs from the stored one; two
 * nulls count as equal. A null value is one more value of T here.
 */
module Util {
  import opened Wrappers

  /**
   * Returns the new content of the storage and the value the callback was
   * invoked with, if it was invoked (`hasAction` is false for a null callback).
   */
  method SetValue<T(==)>(storage: T, value: T, hasAction: bool) returns (stored: T, invoked: Option<T>)
    ensures storage == value ==> stored == storage && invoked == None
    ensures storage != value ==> stored == value
    ensures invoked.Some? <==> storage != value && hasAction
    ensures invoked.Some? ==> invoked.value == value
  {
    if storage == value {
      return storage, None;
    }
    stored := value;
    if hasAction {
      invoked := Some(value);
    } else {
      invoked := None;
    }
  }
}
