/**
 * The browser's `localStorage` as a map from keys to strings, and JavaScript's
 * truthiness test on what `getItem` returns.
 */
module Storage {

  /** The contents of `localStorage`. */
  type Store = map<string, string>

  /**
   * `localStorage.getItem(key)` is truthy: the key is present and its value is
   * not the empty string (the only falsy string).
   */
  predicate Truthy(st: Store, key: string) {
    key in st && st[key] != ""
  }
}
