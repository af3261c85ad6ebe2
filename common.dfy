/** Value types shared by the credential store, the session and the pages. */
module Common {

  datatype Option<+T> = None | Some(value: T)

  /** A value stored in one of the application's Python dictionaries. */
  datatype Field = IntVal(n: int) | StrVal(s: string) | TimeVal(t: int)

  /** A user dictionary as the application passes it around (`{'id': .., 'username': .., 'role': ..}`). */
  type UserDict = map<string, Field>

  /**
   * One key of the per-client session dictionary: the key is missing, it is
   * present and holds `None`, or it holds a value.
   */
  datatype Slot<+T> = Absent | Null | Val(v: T) {
    predicate Present() { !Absent? }
  }

  /** Python truthiness of the `authenticated` key; a missing key reads as false. */
  predicate IsTrue(s: Slot<bool>) {
    s == Val(true)
  }

  /** A user dictionary that carries the `id` and `username` keys the pages index with `[...]`. */
  predicate HasIdentity(d: UserDict) {
    && "id" in d && d["id"].IntVal?
    && "username" in d && d["username"].StrVal?
  }

  /** Some element of a non-empty set. */
  method Pick<T>(s: set<T>) returns (x: T)
    requires s != {}
    ensures x in s
  {
    x :| x in s;
  }
}
