/** Reading optional calibration elements from a decoded data set. */
module Tags {
  import opened Common

  /** A data element tag: (group, element). */
  datatype Tag = Tag(group: int, element: int)

  const SLOPE_TAG := Tag(0x0028, 0x1053)
  const INTERCEPT_TAG := Tag(0x0028, 0x1052)
  const INSTANCE_NUMBER_TAG := Tag(0x0020, 0x0013)
  const NUMBER_OF_FRAMES_TAG := Tag(0x0028, 0x0008)

  /** The value of `tag` in the data set `ds`, or `None` when the data set
      has no such element.  It never fails. */
  function ReadTag<V>(ds: map<Tag, V>, tag: Tag): (r: Option<V>)
    ensures r.Some? <==> tag in ds
    ensures r.Some? ==> r.value == ds[tag]
  {
    if tag in ds then Some(ds[tag]) else None
  }

  /** Truthiness of an optional decimal value: `None` and zero are the
      only falsy values. */
  function Truthy(o: Option<real>): (b: bool)
    ensures !b <==> o == None || o == Some(0.0)
  {
    o.Some? && o.value != 0.0
  }

  /** Truthiness of an optional integer value: `None` and zero are the
      only falsy values. */
  function TruthyInt(o: Option<int>): (b: bool)
    ensures !b <==> o == None || o == Some(0)
  {
    o.Some? && o.value != 0
  }

  /** Truthiness cannot tell an absent element from one present with value
      zero, while `ReadTag` can. */
  lemma ZeroConflatedWithAbsent(ds: map<Tag, real>, tag: Tag)
    requires tag !in ds
    ensures ReadTag(ds, tag) != ReadTag(ds[tag := 0.0], tag)
    ensures !Truthy(ReadTag(ds, tag)) && !Truthy(ReadTag(ds[tag := 0.0], tag))
  {
  }
}
