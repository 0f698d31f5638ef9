/**
 * The grouping step shared by `groupFieldErrors` and `groupConstraintViolations`:
 * `Collectors.groupingBy(key, LinkedHashMap::new, toList())` followed by a map of every
 * entry to one FieldError. The insertion-ordered map is a sequence of buckets, and the
 * collector is a left fold of `Insert` over the input.
 */
module FieldErrorAggregation {
  import opened ErrorModel

  /** One raw binding failure: field path, constraint message and rejected value. */
  datatype Violation = Violation(field: string, message: string, rejectedValue: Value)

  /** One entry of the LinkedHashMap: a key and the violations collected under it. */
  datatype Bucket = Bucket(key: string, members: seq<Violation>)

  function Fields(vs: seq<Violation>): seq<string>
  {
    seq(|vs|, i requires 0 <= i < |vs| => vs[i].field)
  }

  function Keys(bs: seq<Bucket>): seq<string>
  {
    seq(|bs|, i requires 0 <= i < |bs| => bs[i].key)
  }

  function FieldNames(fes: seq<FieldError>): seq<string>
  {
    seq(|fes|, i requires 0 <= i < |fes| => fes[i].field)
  }

  function Messages(vs: seq<Violation>): seq<string>
  {
    seq(|vs|, i requires 0 <= i < |vs| => vs[i].message)
  }

  /** The position of the first occurrence of `k`. */
  function FirstIndex<T(==)>(keys: seq<T>, k: T): (r: nat)
    requires k in keys
    ensures r < |keys| && keys[r] == k
    ensures forall q :: 0 <= q < r ==> keys[q] != k
  {
    if keys[0] == k then 0 else 1 + FirstIndex(keys[1..], k)
  }

  /** Reference definition of a group: the violations of field `k`, in input order. */
  function Select(vs: seq<Violation>, k: string): seq<Violation>
  {
    if vs == [] then []
    else Select(vs[..|vs| - 1], k) + (if vs[|vs| - 1].field == k then [vs[|vs| - 1]] else [])
  }

  /**
   * `map.computeIfAbsent(v.field, k -> new ArrayList<>()).add(v)` on an insertion-ordered
   * map: an existing key keeps its place and gets `v` appended; a new key goes last.
   */
  function Insert(bs: seq<Bucket>, v: Violation): (r: seq<Bucket>)
    ensures v.field !in Keys(bs) ==> r == bs + [Bucket(v.field, [v])]
    ensures v.field in Keys(bs) ==>
      var m := FirstIndex(Keys(bs), v.field);
      r == bs[m := Bucket(v.field, bs[m].members + [v])]
  {
    if bs == [] then [Bucket(v.field, [v])]
    else if bs[0].key == v.field then
      assert Keys(bs)[0] == v.field;
      [Bucket(v.field, bs[0].members + [v])] + bs[1..]
    else
      assert Keys(bs) == [bs[0].key] + Keys(bs[1..]);
      [bs[0]] + Insert(bs[1..], v)
  }

  /** The collector: the buckets after inserting every violation in input order. */
  function GroupingBy(vs: seq<Violation>): (r: seq<Bucket>)
    ensures forall i :: 0 <= i < |r| ==> r[i].members != []
  {
    if vs == [] then [] else Insert(GroupingBy(vs[..|vs| - 1]), vs[|vs| - 1])
  }

  /** One map entry as a FieldError: every message, and the first rejected value. */
  function ToFieldError(b: Bucket): FieldError
    requires b.members != []
  {
    FieldError(b.key, Messages(b.members), b.members[0].rejectedValue)
  }

  function ToFieldErrors(bs: seq<Bucket>): seq<FieldError>
    requires forall i :: 0 <= i < |bs| ==> bs[i].members != []
  {
    seq(|bs|, i requires 0 <= i < |bs| => ToFieldError(bs[i]))
  }

  /** The whole grouping pipeline. */
  function Aggregate(vs: seq<Violation>): seq<FieldError>
  {
    ToFieldErrors(GroupingBy(vs))
  }

  function TotalMembers(bs: seq<Bucket>): nat
  {
    if bs == [] then 0 else |bs[0].members| + TotalMembers(bs[1..])
  }

  function TotalMessages(fes: seq<FieldError>): nat
  {
    if fes == [] then 0 else |fes[0].messages| + TotalMessages(fes[1..])
  }

  /** The set of distinct field paths of the input. */
  function FieldSet(vs: seq<Violation>): set<string>
  {
    set x | x in Fields(vs)
  }

  /** No key occurs twice. */
  predicate Distinct(ks: seq<string>)
  {
    forall i, j :: 0 <= i < j < |ks| ==> ks[i] != ks[j]
  }

  /**
   * `ks` lists the distinct elements of `fs` in order of first occurrence: every key comes
   * from `fs`, every element of `fs` is a key, no key repeats, and keys are ordered by
   * where they first occur in `fs`.
   */
  ghost predicate FirstOccurrenceKeys(fs: seq<string>, ks: seq<string>)
  {
    && (forall i :: 0 <= i < |ks| ==> ks[i] in fs)
    && (forall p :: 0 <= p < |fs| ==> fs[p] in ks)
    && Distinct(ks)
    && (forall i, j :: 0 <= i < j < |ks| && ks[i] in fs && ks[j] in fs ==>
          FirstIndex(fs, ks[i]) < FirstIndex(fs, ks[j]))
  }

  /**
   * What a correct grouping of `vs` is: one entry per distinct field path and no other,
   * ordered by first occurrence, each entry holding exactly that field's messages in input
   * order and the rejected value of that field's first violation.
   */
  ghost predicate GroupingLaws(vs: seq<Violation>, fes: seq<FieldError>)
  {
    && FirstOccurrenceKeys(Fields(vs), FieldNames(fes))
    && (forall i :: 0 <= i < |fes| ==> fes[i].messages == Messages(Select(vs, fes[i].field)))
    && (forall i :: 0 <= i < |fes| ==>
          && fes[i].field in Fields(vs)
          && fes[i].rejectedValue == vs[FirstIndex(Fields(vs), fes[i].field)].rejectedValue)
  }

  /** The invariant of the fold: the keys obey the laws and each bucket is its field's group. */
  ghost predicate BucketsInvariant(vs: seq<Violation>, bs: seq<Bucket>)
  {
    && FirstOccurrenceKeys(Fields(vs), Keys(bs))
    && (forall i :: 0 <= i < |bs| ==> bs[i].members == Select(vs, bs[i].key))
  }

  // ----- facts about the reference definitions -----

  lemma FieldsAppend(vs: seq<Violation>, v: Violation)
    ensures Fields(vs + [v]) == Fields(vs) + [v.field]
  {
  }

  lemma SelectAppend(vs: seq<Violation>, v: Violation, k: string)
    ensures Select(vs + [v], k) == Select(vs, k) + (if v.field == k then [v] else [])
  {
    assert (vs + [v])[..|vs|] == vs;
  }

  lemma {:induction false} SelectAbsent(vs: seq<Violation>, k: string)
    requires k !in Fields(vs)
    ensures Select(vs, k) == []
  {
    if vs != [] {
      var pre := vs[..|vs| - 1];
      assert Fields(pre) == Fields(vs)[..|vs| - 1];
      assert Fields(vs)[|vs| - 1] == vs[|vs| - 1].field;
      SelectAbsent(pre, k);
    }
  }

  /** Appending a key does not move the first occurrence of a key already present. */
  lemma FirstIndexAppendPresent(keys: seq<string>, x: string, k: string)
    requires k in keys
    ensures FirstIndex(keys + [x], k) == FirstIndex(keys, k)
  {
    var r, r' := FirstIndex(keys, k), FirstIndex(keys + [x], k);
    assert (keys + [x])[r] == k;
    assert keys[r'] == (keys + [x])[r'];
  }

  /** A key appended for the first time is found at the end. */
  lemma FirstIndexAppendNew(keys: seq<string>, k: string)
    requires k !in keys
    ensures FirstIndex(keys + [k], k) == |keys|
  {
    assert (keys + [k])[|keys|] == k;
  }

  /** The first member of a group is the violation at the field's first occurrence. */
  lemma {:induction false} SelectHead(vs: seq<Violation>, k: string)
    requires k in Fields(vs)
    ensures Select(vs, k) != []
    ensures Select(vs, k)[0] == vs[FirstIndex(Fields(vs), k)]
  {
    var pre, v := vs[..|vs| - 1], vs[|vs| - 1];
    assert vs == pre + [v];
    FieldsAppend(pre, v);
    SelectAppend(pre, v, k);
    if k in Fields(pre) {
      SelectHead(pre, k);
      FirstIndexAppendPresent(Fields(pre), v.field, k);
    } else {
      SelectAbsent(pre, k);
      assert v.field == k;
      FirstIndexAppendNew(Fields(pre), k);
    }
  }

  // ----- the fold preserves the invariant -----

  /** A repeated field leaves the key list as it was. */
  lemma KeysAfterRepeat(fs: seq<string>, ks: seq<string>, x: string)
    requires FirstOccurrenceKeys(fs, ks)
    requires x in ks
    ensures FirstOccurrenceKeys(fs + [x], ks)
  {
    forall i | 0 <= i < |ks|
      ensures ks[i] in fs
      ensures FirstIndex(fs + [x], ks[i]) == FirstIndex(fs, ks[i])
    {
      FirstIndexAppendPresent(fs, x, ks[i]);
    }
    forall p | 0 <= p < |fs| + 1
      ensures (fs + [x])[p] in ks
    {
      if p < |fs| {
        assert (fs + [x])[p] == fs[p];
      }
    }
  }

  /** A field seen for the first time is appended to the key list. */
  lemma KeysAfterNew(fs: seq<string>, ks: seq<string>, x: string)
    requires FirstOccurrenceKeys(fs, ks)
    requires x !in ks
    ensures FirstOccurrenceKeys(fs + [x], ks + [x])
  {
    var fs', ks' := fs + [x], ks + [x];
    assert x !in fs;
    FirstIndexAppendNew(fs, x);
    forall i | 0 <= i < |ks'|
      ensures ks'[i] in fs'
      ensures FirstIndex(fs', ks'[i]) == if i < |ks| then FirstIndex(fs, ks[i]) else |fs|
    {
      if i < |ks| {
        FirstIndexAppendPresent(fs, x, ks[i]);
      }
    }
    forall p | 0 <= p < |fs'|
      ensures fs'[p] in ks'
    {
      if p < |fs| {
        assert fs'[p] == fs[p];
      } else {
        assert ks'[|ks|] == x;
      }
    }
  }

  lemma InsertPreservesExisting(vs: seq<Violation>, bs: seq<Bucket>, v: Violation)
    requires BucketsInvariant(vs, bs)
    requires v.field in Keys(bs)
    ensures BucketsInvariant(vs + [v], Insert(bs, v))
  {
    var vs', bs' := vs + [v], Insert(bs, v);
    var m := FirstIndex(Keys(bs), v.field);
    assert bs' == bs[m := Bucket(v.field, bs[m].members + [v])];
    assert Keys(bs') == Keys(bs);
    FieldsAppend(vs, v);
    KeysAfterRepeat(Fields(vs), Keys(bs), v.field);
    forall i | 0 <= i < |bs'|
      ensures bs'[i].members == Select(vs', bs'[i].key)
    {
      assert Keys(bs)[i] == bs[i].key;
      SelectAppend(vs, v, bs[i].key);
    }
  }

  lemma InsertPreservesNew(vs: seq<Violation>, bs: seq<Bucket>, v: Violation)
    requires BucketsInvariant(vs, bs)
    requires v.field !in Keys(bs)
    ensures BucketsInvariant(vs + [v], Insert(bs, v))
  {
    var vs', bs' := vs + [v], Insert(bs, v);
    assert bs' == bs + [Bucket(v.field, [v])];
    assert Keys(bs') == Keys(bs) + [v.field];
    FieldsAppend(vs, v);
    KeysAfterNew(Fields(vs), Keys(bs), v.field);
    forall i | 0 <= i < |bs'|
      ensures bs'[i].members == Select(vs', bs'[i].key)
    {
      if i < |bs| {
        assert Keys(bs)[i] == bs[i].key;
        SelectAppend(vs, v, bs[i].key);
      } else {
        assert v.field !in Fields(vs);
        SelectAbsent(vs, v.field);
        SelectAppend(vs, v, v.field);
      }
    }
  }

  lemma InsertPreserves(vs: seq<Violation>, bs: seq<Bucket>, v: Violation)
    requires BucketsInvariant(vs, bs)
    ensures BucketsInvariant(vs + [v], Insert(bs, v))
  {
    if v.field in Keys(bs) {
      InsertPreservesExisting(vs, bs, v);
    } else {
      InsertPreservesNew(vs, bs, v);
    }
  }

  lemma {:induction false} GroupingByInvariant(vs: seq<Violation>)
    ensures BucketsInvariant(vs, GroupingBy(vs))
  {
    if vs != [] {
      var pre, v := vs[..|vs| - 1], vs[|vs| - 1];
      GroupingByInvariant(pre);
      InsertPreserves(pre, GroupingBy(pre), v);
      assert pre + [v] == vs;
    }
  }

  // ----- nothing is dropped -----

  lemma {:induction false} InsertTotal(bs: seq<Bucket>, v: Violation)
    ensures TotalMembers(Insert(bs, v)) == TotalMembers(bs) + 1
  {
    if bs != [] && bs[0].key != v.field {
      InsertTotal(bs[1..], v);
      assert Insert(bs, v)[1..] == Insert(bs[1..], v);
    } else if bs != [] {
      assert Insert(bs, v)[1..] == bs[1..];
    }
  }

  lemma {:induction false} GroupingByTotal(vs: seq<Violation>)
    ensures TotalMembers(GroupingBy(vs)) == |vs|
  {
    if vs != [] {
      GroupingByTotal(vs[..|vs| - 1]);
      InsertTotal(GroupingBy(vs[..|vs| - 1]), vs[|vs| - 1]);
    }
  }

  lemma {:induction false} ToFieldErrorsTotal(bs: seq<Bucket>)
    requires forall i :: 0 <= i < |bs| ==> bs[i].members != []
    ensures TotalMessages(ToFieldErrors(bs)) == TotalMembers(bs)
  {
    if bs != [] {
      ToFieldErrorsTotal(bs[1..]);
      assert ToFieldErrors(bs)[1..] == ToFieldErrors(bs[1..]);
    }
  }

  // ----- the main theorem -----

  /** The grouping obeys GroupingLaws, and every group has at least one message. */
  lemma AggregateLaws(vs: seq<Violation>)
    ensures GroupingLaws(vs, Aggregate(vs))
    ensures forall i :: 0 <= i < |Aggregate(vs)| ==> Aggregate(vs)[i].messages != []
  {
    var bs := GroupingBy(vs);
    var fes := Aggregate(vs);
    GroupingByInvariant(vs);
    assert FieldNames(fes) == Keys(bs);
    forall i | 0 <= i < |fes|
      ensures fes[i].field in Fields(vs)
      ensures fes[i].messages == Messages(Select(vs, fes[i].field))
      ensures fes[i].rejectedValue == vs[FirstIndex(Fields(vs), fes[i].field)].rejectedValue
      ensures fes[i].messages != []
    {
      assert Keys(bs)[i] == bs[i].key;
      SelectHead(vs, bs[i].key);
    }
  }

  /** No message is lost or invented, and only the empty input gives the empty list. */
  lemma AggregateComplete(vs: seq<Violation>)
    ensures TotalMessages(Aggregate(vs)) == |vs|
    ensures Aggregate(vs) == [] <==> vs == []
  {
    GroupingByTotal(vs);
    ToFieldErrorsTotal(GroupingBy(vs));
  }

  /** A duplicate-free sequence has as many distinct elements as it has positions. */
  lemma {:induction false} DistinctCardinality(s: seq<string>)
    requires Distinct(s)
    ensures |set x | x in s| == |s|
  {
    if s != [] {
      var pre := s[..|s| - 1];
      DistinctCardinality(pre);
      assert (set x | x in s) == (set x | x in pre) + {s[|s| - 1]};
    }
  }

  lemma {:induction false} SetOfSeqBound(s: seq<string>)
    ensures |set x | x in s| <= |s|
  {
    if s != [] {
      var pre := s[..|s| - 1];
      SetOfSeqBound(pre);
      assert (set x | x in s) == (set x | x in pre) + {s[|s| - 1]};
    }
  }

  /** The keys and the sequence they are drawn from hold the same elements. */
  lemma SameElements(fs: seq<string>, ks: seq<string>)
    requires FirstOccurrenceKeys(fs, ks)
    ensures (set x | x in ks) == (set x | x in fs)
  {
  }

  /** The number of groups is the number of distinct field paths, not of raw violations. */
  lemma GroupCount(vs: seq<Violation>)
    ensures |Aggregate(vs)| == |FieldSet(vs)| <= |vs|
  {
    var fes := Aggregate(vs);
    AggregateLaws(vs);
    DistinctCardinality(FieldNames(fes));
    SameElements(Fields(vs), FieldNames(fes));
    SetOfSeqBound(Fields(vs));
  }

  /** Two violations of one field and one of another are grouped into two entries. */
  lemma AggregateExample()
    ensures Aggregate([
        Violation("name", "must not be blank", NullValue),
        Violation("name", "must be <=200 chars", NullValue),
        Violation("type", "invalid value", Text("XYZ"))]) == [
        FieldError("name", ["must not be blank", "must be <=200 chars"], NullValue),
        FieldError("type", ["invalid value"], Text("XYZ"))]
  {
    var v0 := Violation("name", "must not be blank", NullValue);
    var v1 := Violation("name", "must be <=200 chars", NullValue);
    var v2 := Violation("type", "invalid value", Text("XYZ"));
    var vs := [v0, v1, v2];
    assert [v0][..0] == [];
    var b1 := GroupingBy([v0]);
    assert b1 == Insert([], v0) == [Bucket("name", [v0])];
    assert [v0, v1][..1] == [v0];
    assert Keys(b1) == ["name"];
    var b2 := GroupingBy([v0, v1]);
    assert b1[0].key == v1.field && b1[1..] == [] && [v0] + [v1] == [v0, v1];
    assert b2 == Insert(b1, v1) == [Bucket("name", [v0, v1])];
    assert vs[..2] == [v0, v1];
    assert Keys(b2) == ["name"];
    var b3 := GroupingBy(vs);
    assert b3 == Insert(b2, v2) == [Bucket("name", [v0, v1]), Bucket("type", [v2])];
    assert Messages([v0, v1]) == ["must not be blank", "must be <=200 chars"];
    assert Messages([v2]) == ["invalid value"];
    var fes := ToFieldErrors(b3);
    assert |fes| == 2 && fes[0] == ToFieldError(b3[0]) && fes[1] == ToFieldError(b3[1]);
  }
}
