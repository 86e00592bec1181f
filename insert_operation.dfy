/**
 * The insert atom of a plain-text operation (packages/ot-server/src/plaintext/insert-operation.ts):
 * a mutable text and a read-only, optional attribute map.
 */
module InsertOperations {
  import opened Wrappers
  import opened Errors
  import opened PlainText

  /**
   * The value view of any atom an insert can be compared with. Retain and delete
   * atoms are only ever asked whether they are inserts, so their counts are all
   * that is kept of them.
   */
  datatype Atom =
    | Insert(text: string, attributes: Option<Attributes>)
    | Retain(count: nat)
    | Delete(count: nat)

  /** No attribute value is NaN, the one value JavaScript does not find equal to itself. */
  predicate NoNaN(m: Attributes) {
    forall k :: k in m ==> !m[k].NaN?
  }

  /** No key is present with the value `undefined`, which reads like a missing key. */
  predicate NoUndefined(m: Attributes) {
    forall k :: k in m ==> !m[k].Undefined?
  }

  /**
   * What `attributesEqual` decides, with `mine` as the receiver's attributes: if either
   * side is null, both are; otherwise every key of either map reads strictly equal
   * on both sides.
   */
  predicate AttrsEqual(mine: Option<Attributes>, theirs: Option<Attributes>) {
    if mine.None? || theirs.None? then mine.None? && theirs.None?
    else
      (forall k :: k in mine.value ==> StrictEquals(mine.value[k], Lookup(theirs.value, k))) &&
      (forall k :: k in theirs.value ==> StrictEquals(Lookup(mine.value, k), theirs.value[k]))
  }

  /** Attribute equality does not depend on which side is the receiver. */
  lemma AttrsEqualSymmetric(a: Option<Attributes>, b: Option<Attributes>)
    ensures AttrsEqual(a, b) <==> AttrsEqual(b, a)
  {
  }

  /**
   * Without NaN or explicitly `undefined` values, attribute equality is exactly
   * equality of the two maps.
   */
  lemma AttrsEqualIsMapEquality(a: Attributes, b: Attributes)
    requires NoNaN(a) && NoNaN(b) && NoUndefined(a) && NoUndefined(b)
    ensures AttrsEqual(Some(a), Some(b)) <==> a == b
  {
    if AttrsEqual(Some(a), Some(b)) {
      forall k | k in a ensures k in b && a[k] == b[k] {
        assert StrictEquals(a[k], Lookup(b, k));
      }
      forall k | k in b ensures k in a {
        assert StrictEquals(Lookup(a, k), b[k]);
      }
      assert a.Keys == b.Keys;
    }
  }

  /** A key added with the value `undefined` leaves a map attribute-equal to what it was. */
  lemma UndefinedMatchesMissingKey(m: Attributes, k: string)
    requires k !in m && NoNaN(m)
    ensures AttrsEqual(Some(m[k := Undefined]), Some(m))
  {
  }

  /** Attributes holding a NaN value are not attribute-equal to themselves. */
  lemma NaNAttributeNotSelfEqual(m: Attributes, k: string)
    requires k in m && m[k].NaN?
    ensures !AttrsEqual(Some(m), Some(m))
  {
  }

  class InsertOperation {
    var text: string
    const attributes: Option<Attributes>

    constructor (text: string, attributes: Option<Attributes>)
      ensures this.text == text && this.attributes == attributes
    {
      this.text := text;
      this.attributes := attributes;
    }

    /** The atom this insert currently stands for. */
    function View(): (a: Atom)
      reads this
      ensures a.Insert? && a.text == text && a.attributes == attributes
    {
      Insert(text, attributes)
    }

    function IsInsert(): (b: bool)
      ensures b
    {
      true
    }

    function IsDelete(): (b: bool)
      ensures !b
    {
      false
    }

    function IsRetain(): (b: bool)
      ensures !b
    {
      false
    }

    /**
     * `equals`: the other atom is an insert, its attributes equal ours (asked of the
     * other atom, with our attributes as argument) and its text is ours.
     */
    function Equals(other: Atom): (b: bool)
      reads this
      ensures b <==> other.Insert? && AttrsEqual(attributes, other.attributes) && other.text == text
    {
      AttrsEqualSymmetric(attributes, if other.Insert? then other.attributes else None);
      other.Insert? && AttrsEqual(other.attributes, attributes) && other.text == text
    }

    /**
     * `attributesEqual`: two passes over the keys of each map with an early exit
     * at the first key whose values differ.
     */
    method AttributesEqual(other: Option<Attributes>) returns (b: bool)
      ensures b == AttrsEqual(attributes, other)
    {
      if other.None? || attributes.None? {
        return attributes == other;
      }
      var mine, theirs := attributes.value, other.value;
      var keys := mine.Keys;
      while keys != {}
        invariant keys <= mine.Keys
        invariant forall k :: k in mine && k !in keys ==> StrictEquals(mine[k], Lookup(theirs, k))
        decreases keys
      {
        var k :| k in keys;
        if !StrictEquals(mine[k], Lookup(theirs, k)) {
          return false;
        }
        keys := keys - {k};
      }
      keys := theirs.Keys;
      while keys != {}
        invariant keys <= theirs.Keys
        invariant forall k :: k in theirs && k !in keys ==> StrictEquals(Lookup(mine, k), theirs[k])
        decreases keys
      {
        var k :| k in keys;
        if !StrictEquals(Lookup(mine, k), theirs[k]) {
          return false;
        }
        keys := keys - {k};
      }
      return true;
    }

    function CharacterCountEqual(count: int): (b: bool)
      ensures !b
    {
      false
    }

    function TextContentEqual(t: string): (b: bool)
      reads this
      ensures b <==> t == text
    {
      text == t
    }

    /** An insert has no character count to add to. */
    method AddCharacterCount(count: int) returns (outcome: Outcome<Error>)
      ensures outcome == Fail(NoopError)
    {
      return Fail(NoopError);
    }

    method AddTextContent(t: string)
      modifies this
      ensures text == old(text) + t
    {
      text := text + t;
    }

    method SetTextContent(t: string)
      modifies this
      ensures text == t
    {
      text := t;
    }

    /** An insert has no character count to read. */
    function CharacterCount(): (r: Result<nat, Error>)
      ensures r == Err(NoopError)
    {
      Err(NoopError)
    }

    /** `textContent` and `valueOf`: the current text. */
    function TextContent(): (t: string)
      reads this
      ensures t == View().text
    {
      text
    }

    function HasEmptyAttributes(): (b: bool)
      ensures b <==> attributes.None? || attributes.value == map[]
    {
      attributes.None? || |attributes.value| == 0
    }

    /** `getAttributes`: a copy of the attributes, with null read as an empty object. */
    function GetAttributes(): (m: Attributes)
      ensures attributes.Some? ==> m == attributes.value
      ensures attributes.None? ==> m == map[]
    {
      if attributes.None? then map[] else attributes.value
    }

    /** `toString`: the text quoted after the word INSERT. */
    function ToString(): (s: string)
      reads this
      ensures |s| == |text| + 9 && s[..8] == "INSERT \"" && s[8..|s| - 1] == text && s[|s| - 1] == '"'
    {
      "INSERT \"" + text + "\""
    }
  }

  /** Empty attributes are exactly those whose copy is the empty object. */
  lemma EmptyAttributesHaveEmptyCopy(op: InsertOperation)
    ensures op.HasEmptyAttributes() <==> op.GetAttributes() == map[]
  {
  }

  /** The copy does not give back a null attribute map: it is not attribute-equal to it. */
  lemma NullAttributesCopyDiffers(op: InsertOperation)
    requires op.attributes.None?
    ensures !AttrsEqual(Some(op.GetAttributes()), op.attributes)
  {
  }

  /** Two inserts agree on whether they are equal, whichever is asked. */
  lemma EqualsSymmetric(a: InsertOperation, b: InsertOperation)
    ensures a.Equals(b.View()) <==> b.Equals(a.View())
  {
    AttrsEqualSymmetric(a.attributes, b.attributes);
  }

  /** An insert equals itself unless one of its attributes is NaN. */
  lemma EqualsReflexive(a: InsertOperation)
    requires a.attributes.Some? ==> NoNaN(a.attributes.value)
    ensures a.Equals(a.View())
  {
  }

  /** No insert equals a retain or a delete. */
  lemma EqualsOnlyInserts(a: InsertOperation, n: nat)
    ensures !a.Equals(Retain(n)) && !a.Equals(Delete(n))
  {
  }
}
