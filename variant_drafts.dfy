/**
  The variant rows both product forms edit before they submit: each row is
  a value (a size label, or a piece count as text) and a price as typed.
  "Add variant" appends an empty row, typing in a row changes one of its two
  fields, and the trash button drops the row at that position.
 */
module VariantDrafts {
  import opened Common

  /**
    One row of the form. The add form always holds text; the edit form can
    hold no value at all (`undefined`) when it loads a variant without a
    size or piece count, so the value is optional.
   */
  datatype Draft = Draft(value: Option<string>, price: string)

  datatype Field = ValueField | PriceField

  /** `{ value: '', price: '' }` */
  const EmptyDraft := Draft(Some(""), "")

  /** `row[field] = text` */
  function WithField(d: Draft, field: Field, text: string): (r: Draft)
    ensures field == ValueField ==> r.value == Some(text) && r.price == d.price
    ensures field == PriceField ==> r.price == text && r.value == d.value
  {
    match field
    case ValueField => d.(value := Some(text))
    case PriceField => d.(price := text)
  }

  /** `addVariant`: one more, empty row at the end. */
  function Appended(s: seq<Draft>): (r: seq<Draft>)
    ensures |r| == |s| + 1 && r[..|s|] == s && r[|s|] == EmptyDraft
  {
    s + [EmptyDraft]
  }

  /**
    `updateVariant(index, field, text)`: that row's field takes the text and
    every other row stays. The handler writes through `updated[index]`, which
    fails on an index outside the list.
   */
  function UpdatedAt(s: seq<Draft>, i: int, field: Field, text: string): (r: seq<Draft>)
    requires 0 <= i < |s|
    ensures |r| == |s|
    ensures r[i] == WithField(s[i], field, text)
    ensures forall k :: 0 <= k < |s| && k != i ==> r[k] == s[k]
  {
    s[i := WithField(s[i], field, text)]
  }

  /**
    `removeVariant(index)`: `filter((_, i) => i !== index)`, which drops the
    row at that position and keeps the others in order; an index outside the
    list removes nothing.
   */
  function RemovedAt(s: seq<Draft>, i: int): (r: seq<Draft>)
    ensures 0 <= i < |s| ==>
      |r| == |s| - 1
      && (forall k :: 0 <= k < i ==> r[k] == s[k])
      && (forall k :: i <= k < |r| ==> r[k] == s[k + 1])
    ensures !(0 <= i < |s|) ==> r == s
  {
    if 0 <= i < |s| then s[..i] + s[i + 1..] else s
  }

  /** Adding a row and removing it again restores the list. */
  lemma RemoveAppended(s: seq<Draft>)
    ensures RemovedAt(Appended(s), |s|) == s
  {
    assert Appended(s)[..|s|] == s;
  }

  /** Removing a row keeps every other row, with the same multiplicity. */
  lemma RemovedAtMultiset(s: seq<Draft>, i: int)
    requires 0 <= i < |s|
    ensures multiset(RemovedAt(s, i)) + multiset{s[i]} == multiset(s)
  {
    assert s == s[..i] + [s[i]] + s[i + 1..];
  }

  /** Changing a field twice keeps only the second text; the other field is untouched throughout. */
  lemma UpdatedAtTwice(s: seq<Draft>, i: int, field: Field, a: string, b: string)
    requires 0 <= i < |s|
    ensures UpdatedAt(UpdatedAt(s, i, field, a), i, field, b) == UpdatedAt(s, i, field, b)
  {
  }
}
