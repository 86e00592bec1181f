/**
 * The values the core exchanges with the plain-text operation library, and that
 * library's interface as far as the core uses it. The library itself (the
 * `PlainTextOperation` class with its `compose`, `fromJSON`, `toJSON`, `clone`)
 * is not part of this model: it enters as an `Algebra`, a record of functions
 * about which nothing is assumed beyond its types.
 */
module PlainText {

  /**
   * A JavaScript value stored in an attribute map. Numbers are modelled as
   * integers plus NaN; objects, arrays and functions are compared by reference,
   * so each carries only a reference number.
   */
  datatype Value =
    | Undefined
    | Null
    | Bool(b: bool)
    | Number(n: int)
    | NaN
    | Str(s: string)
    | Object(ref: nat)

  /** JavaScript's `===`: identity of primitives and references, except that NaN equals nothing. */
  predicate StrictEquals(x: Value, y: Value) {
    x == y && !x.NaN?
  }

  /** Attributes attached to an insert: a plain object from keys to values. */
  type Attributes = map<string, Value>

  /** Property access `m[k]`: a missing key reads as `undefined`. */
  function Lookup(m: Attributes, k: string): Value {
    if k in m then m[k] else Undefined
  }

  /**
   * One entry of an operation's JSON form: a positive number retains, a negative
   * number deletes, a string inserts, an object gives the preceding insert's attributes.
   */
  datatype JsonEntry = JNumber(n: int) | JString(s: string) | JAttributes(attributes: Attributes)

  /** The JSON form of an operation (`TPlainTextOperation`). */
  type Json = seq<JsonEntry>

  /**
   * The operation library as the core sees it. `empty` is `new PlainTextOperation()`;
   * `clone` returns an equal value, so it is the identity here.
   */
  datatype Algebra<!Op> = Algebra(
    empty: Op,
    fromJSON: Json -> Op,
    toJSON: Op -> Json,
    baseLength: Op -> nat,
    targetLength: Op -> nat,
    compose: (Op, Op) -> Op)
  {
    /**
     * `a.canMergeWith(b)`: `b` can follow `a`. `compose(a, b)` is only meaningful,
     * and only returns, when this holds; otherwise it throws a length mismatch.
     */
    predicate CanMerge(a: Op, b: Op) {
      targetLength(a) == baseLength(b)
    }
  }
}
