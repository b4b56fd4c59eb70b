/** Typed capabilities: keys, values, canonical sets and tri-state requirement evaluation
    (src/capability.cpp, include/federation_observatory/capability.hpp). */
module Capability {
  import opened Foundation
  import Versions

  // ---------------------------------------------------------------------------------
  // Keys, ordered by enumerator and then by vendor identifier
  // ---------------------------------------------------------------------------------

  /** Capability keys by their published enumerator value. */
  type CapabilityKey = x: int | 0 <= x < 0x1_0000

  const UNKNOWN_KEY: CapabilityKey := 0
  const COMPILER_TARGET: CapabilityKey := 120
  const KERNEL_FORMAT: CapabilityKey := 122
  const ARTIFACT_FORMATS: CapabilityKey := 181
  const SECURITY_ISOLATION: CapabilityKey := 203
  const CUSTOM_KEY: CapabilityKey := 4096

  datatype CapabilityRef = CapabilityRef(key: CapabilityKey, custom: Id) {
    predicate Valid() {
      if key == UNKNOWN_KEY then false
      else if key == CUSTOM_KEY then custom != []
      else custom == []
    }
  }

  predicate TextLess(a: Text, b: Text) {
    if b == [] then false
    else if a == [] then true
    else a[0] < b[0] || (a[0] == b[0] && TextLess(a[1..], b[1..]))
  }

  predicate RefLess(a: CapabilityRef, b: CapabilityRef) {
    if a.key != b.key then a.key < b.key else TextLess(a.custom, b.custom)
  }

  lemma {:induction false} TextOrder(a: Text, b: Text, c: Text)
    ensures !TextLess(a, a)
    ensures a == b || TextLess(a, b) || TextLess(b, a)
    ensures TextLess(a, b) && TextLess(b, c) ==> TextLess(a, c)
  {
    if a != [] {
      TextOrder(a[1..], if b == [] then [] else b[1..], if c == [] then [] else c[1..]);
    }
  }

  lemma RefOrder(a: CapabilityRef, b: CapabilityRef, c: CapabilityRef)
    ensures !RefLess(a, a)
    ensures a == b || RefLess(a, b) || RefLess(b, a)
    ensures RefLess(a, b) && RefLess(b, c) ==> RefLess(a, c)
  {
    TextOrder(a.custom, b.custom, c.custom);
  }

  // ---------------------------------------------------------------------------------
  // Values
  // ---------------------------------------------------------------------------------

  const I64_MAX: int := 0x7FFF_FFFF_FFFF_FFFF
  const MAX_FIELD := 4096
  const MAX_VALUE_SET := 32
  const MAX_VALUE_SET_ENTRY := 256

  type I64 = x: int | -I64_MAX - 1 <= x <= I64_MAX

  /** A string field: longer text cannot be carried by the wire or state formats. */
  type Field = t: Text | |t| <= MAX_FIELD

  datatype CapabilityValue =
    | Unpublished
    | Boolean(flag: bool)
    | Integer(signed: I64)
    | Unsigned(unsigned: U64)
    | TextValue(text: Field)
    | TextSet(texts: seq<Text>)
  {
    predicate Known() { !Unpublished? }
    predicate IsIntegral() { Integer? || Unsigned? }

    function AsInteger(): I64
      requires IsIntegral()
    {
      if Integer? then signed else if unsigned > I64_MAX then I64_MAX else unsigned
    }

    function AsUnsigned(): U64
      requires IsIntegral()
    {
      if Unsigned? then unsigned else if signed < 0 then 0 else signed
    }

    function Exact(): int
      requires IsIntegral()
    {
      if Integer? then signed else unsigned
    }
  }

  /** A value set is refused when it is too large or has an over-long member. */
  function SingletonSet(text: Text): (r: Option<CapabilityValue>)
    ensures r.Some? <==> |text| <= MAX_VALUE_SET_ENTRY
    ensures r.Some? ==> r.value == TextSet([text])
  {
    if |text| > MAX_VALUE_SET_ENTRY then None else Some(TextSet([text]))
  }

  /** None when the two values are not both integral, else the sign of their difference. */
  function CompareNumeric(a: CapabilityValue, b: CapabilityValue): Option<int> {
    if !a.IsIntegral() || !b.IsIntegral() then None
    else if a.AsInteger() >= 0 && b.AsInteger() >= 0 then
      Some(Versions.Sign(a.AsUnsigned(), b.AsUnsigned()))
    else
      Some(Versions.Sign(a.AsInteger(), b.AsInteger()))
  }

  /** Mixing signed and unsigned storage never distorts the comparison. */
  lemma NumericComparisonIsExact(a: CapabilityValue, b: CapabilityValue)
    requires a.IsIntegral() && b.IsIntegral()
    ensures CompareNumeric(a, b) ==
            Some(if a.Exact() < b.Exact() then -1 else if a.Exact() > b.Exact() then 1 else 0)
  {
  }

  // ---------------------------------------------------------------------------------
  // Sets
  // ---------------------------------------------------------------------------------

  datatype CapabilityEntry = CapabilityEntry(
    key: CapabilityRef,
    value: CapabilityValue,
    precision: int,
    evidenceClass: int,
    generation: U64)

  datatype CapabilitySet = CapabilitySet(entries: seq<CapabilityEntry>, limit: nat)

  const MAX_ENTRIES := 512
  const EMPTY_SET := CapabilitySet([], MAX_ENTRIES)

  predicate Sorted(entries: seq<CapabilityEntry>) {
    forall i, j :: 0 <= i < j < |entries| ==> RefLess(entries[i].key, entries[j].key)
  }

  predicate KeysValid(entries: seq<CapabilityEntry>) {
    forall i :: 0 <= i < |entries| ==> entries[i].key.Valid()
  }

  /** What every set built through puts satisfies. */
  predicate Canonical(entries: seq<CapabilityEntry>) {
    Sorted(entries) && KeysValid(entries)
  }

  function Find(entries: seq<CapabilityEntry>, key: CapabilityRef): (r: Option<CapabilityEntry>)
    ensures r.Some? ==> r.value in entries && r.value.key == key
    ensures r.None? ==> forall i :: 0 <= i < |entries| ==> entries[i].key != key
  {
    if entries == [] then None
    else if entries[0].key == key then Some(entries[0])
    else Find(entries[1..], key)
  }

  /** Replaces the entry with the same key, or inserts at the sorted position. */
  function Insert(entries: seq<CapabilityEntry>, e: CapabilityEntry): seq<CapabilityEntry> {
    if entries == [] then [e]
    else if entries[0].key == e.key then [e] + entries[1..]
    else if RefLess(e.key, entries[0].key) then [e] + entries
    else [entries[0]] + Insert(entries[1..], e)
  }

  function PutInto(s: CapabilitySet, e: CapabilityEntry): Result<CapabilitySet> {
    if !e.key.Valid() then Err(InvalidArgument)
    else if Find(s.entries, e.key).None? && |s.entries| >= s.limit then Err(BoundExceeded)
    else Ok(s.(entries := Insert(s.entries, e)))
  }

  lemma {:induction false} InsertMembers(entries: seq<CapabilityEntry>, e: CapabilityEntry)
    requires Sorted(entries)
    ensures forall x :: x in Insert(entries, e) <==> x == e || (x in entries && x.key != e.key)
    ensures |Insert(entries, e)| == |entries| + if Find(entries, e.key).None? then 1 else 0
  {
    if entries != [] {
      assert entries == [entries[0]] + entries[1..];
      if entries[0].key == e.key {
        forall x | x in entries[1..] ensures x.key != e.key {
          RefOrder(e.key, e.key, e.key);
        }
      } else if RefLess(e.key, entries[0].key) {
        forall i | 0 <= i < |entries| ensures entries[i].key != e.key {
          RefOrder(e.key, entries[0].key, entries[i].key);
          RefOrder(e.key, e.key, e.key);
        }
      } else {
        InsertMembers(entries[1..], e);
      }
    }
  }

  lemma {:induction false} InsertCanonical(entries: seq<CapabilityEntry>, e: CapabilityEntry)
    requires Canonical(entries) && e.key.Valid()
    ensures Canonical(Insert(entries, e))
  {
    if entries != [] && entries[0].key != e.key {
      if RefLess(e.key, entries[0].key) {
        forall i | 0 <= i < |entries| ensures RefLess(e.key, entries[i].key) {
          RefOrder(e.key, entries[0].key, entries[i].key);
        }
      } else {
        RefOrder(entries[0].key, e.key, e.key);
        InsertCanonical(entries[1..], e);
        InsertMembers(entries[1..], e);
        var more := Insert(entries[1..], e);
        forall i | 0 <= i < |more| ensures RefLess(entries[0].key, more[i].key) {
          assert more[i] in more;
        }
      }
    }
  }

  lemma {:induction false} FindMember(entries: seq<CapabilityEntry>, x: CapabilityEntry)
    requires Sorted(entries) && x in entries
    ensures Find(entries, x.key) == Some(x)
  {
    if entries[0] != x {
      assert entries == [entries[0]] + entries[1..];
      assert x in entries[1..];
      FindMember(entries[1..], x);
      RefOrder(x.key, x.key, x.key);
    }
  }

  /** A put fails for an invalid key, and for a new one in a full set, and for nothing else. */
  lemma PutIsRefusedExactly(s: CapabilitySet, e: CapabilityEntry)
    ensures PutInto(s, e) == Err(InvalidArgument) <==> !e.key.Valid()
    ensures PutInto(s, e) == Err(BoundExceeded) <==> e.key.Valid() && Find(s.entries, e.key).None? && s.limit <= |s.entries|
    ensures PutInto(s, e).Ok? <==> e.key.Valid() && (Find(s.entries, e.key).Some? || |s.entries| < s.limit)
  {
    hide Find, Insert;
  }

  /** A put is a map update: the key reads back the entry, every other key is untouched,
      and the set stays canonical. */
  lemma PutThenFind(s: CapabilitySet, e: CapabilityEntry, key: CapabilityRef)
    requires Canonical(s.entries) && PutInto(s, e).Ok?
    ensures Canonical(PutInto(s, e).value.entries)
    ensures Find(PutInto(s, e).value.entries, key) == if key == e.key then Some(e) else Find(s.entries, key)
  {
    hide Insert, RefLess, Find;
    InsertCanonical(s.entries, e);
    InsertMembers(s.entries, e);
    var after := PutInto(s, e).value.entries;
    assert e in after;
    FindMember(after, e);
    if key != e.key {
      if Find(s.entries, key).Some? {
        FindMember(after, Find(s.entries, key).value);
      }
    }
  }

  /** Canonical form: two sets that answer every lookup alike are the same sequence, so
      insertion order leaves no trace. */
  lemma {:induction false} LookupsDetermineSet(a: seq<CapabilityEntry>, b: seq<CapabilityEntry>)
    requires Sorted(a) && Sorted(b)
    requires forall key :: Find(a, key) == Find(b, key)
    ensures a == b
  {
    assert a != [] ==> Find(a, a[0].key) == Find(b, a[0].key);
    assert b != [] ==> Find(a, b[0].key) == Find(b, b[0].key);
    if a != [] && b != [] {
      assert a[0] in b && b[0] in a;
      RefOrder(a[0].key, b[0].key, a[0].key);
      RefOrder(a[0].key, a[0].key, a[0].key);
      assert a[0] == b[0];
      assert a == [a[0]] + a[1..] && b == [b[0]] + b[1..];
      forall key ensures Find(a[1..], key) == Find(b[1..], key) {
        assert Find(a, key) == Find(b, key);
        if key == a[0].key {
          RefOrder(key, key, key);
        }
      }
      LookupsDetermineSet(a[1..], b[1..]);
    }
  }

  /** The mutable set: entries are edited in place and re-sorted. */
  class CapabilityTable {
    var entries: seq<CapabilityEntry>
    var limit: nat

    ghost predicate Valid() reads this { Canonical(entries) }

    constructor (limit: nat)
      ensures Valid() && entries == [] && this.limit == limit
    {
      entries, this.limit := [], limit;
    }

    method Put(entry: CapabilityEntry) returns (r: Option<ErrorCode>)
      requires Valid()
      modifies this`entries
      ensures Valid()
      ensures match PutInto(CapabilitySet(old(entries), limit), entry)
              case Ok(s) => r == None && entries == s.entries
              case Err(code) => r == Some(code) && entries == old(entries)
    {
      if !entry.key.Valid() {
        return Some(InvalidArgument);
      }
      InsertCanonical(entries, entry);
      var existing := 0;
      while existing < |entries| && entries[existing].key != entry.key
        invariant 0 <= existing <= |entries|
        invariant forall i :: 0 <= i < existing ==> entries[i].key != entry.key
      {
        existing := existing + 1;
      }
      if existing < |entries| {
        InsertReplaces(entries, entry, existing);
        entries := entries[existing := entry];
        return None;
      }
      if |entries| >= limit {
        return Some(BoundExceeded);
      }
      var position := |entries|;
      while position > 0 && RefLess(entry.key, entries[position - 1].key)
        invariant 0 <= position <= |entries|
        invariant forall i :: position <= i < |entries| ==> RefLess(entry.key, entries[i].key)
      {
        position := position - 1;
      }
      InsertSplits(entries, entry, position);
      entries := entries[..position] + [entry] + entries[position..];
      return None;
    }
  }

  lemma {:induction false} InsertReplaces(entries: seq<CapabilityEntry>, e: CapabilityEntry, at: nat)
    requires Sorted(entries) && at < |entries| && entries[at].key == e.key
    ensures Insert(entries, e) == entries[at := e]
    ensures Find(entries, e.key).Some?
  {
    if at > 0 {
      RefOrder(entries[0].key, entries[at].key, entries[0].key);
      InsertReplaces(entries[1..], e, at - 1);
    }
  }

  lemma {:induction false} InsertSplits(entries: seq<CapabilityEntry>, e: CapabilityEntry, at: nat)
    requires Sorted(entries) && at <= |entries| && Find(entries, e.key).None?
    requires forall i :: at <= i < |entries| ==> RefLess(e.key, entries[i].key)
    requires at > 0 ==> !RefLess(e.key, entries[at - 1].key)
    ensures Insert(entries, e) == entries[..at] + [e] + entries[at..]
  {
    hide RefLess;
    if at > 0 {
      if RefLess(e.key, entries[0].key) {
        RefOrder(e.key, entries[0].key, entries[at - 1].key);
      }
      InsertSplits(entries[1..], e, at - 1);
    }
  }

  // ---------------------------------------------------------------------------------
  // Requirements
  // ---------------------------------------------------------------------------------

  datatype Comparator = Present | Absent | Equals | NotEquals | AtLeast | AtMost | AnyOf | AllOf

  datatype Requirement = Requirement(
    key: CapabilityRef,
    comparator: Comparator,
    value: CapabilityValue,
    optional: bool)

  /** Equality of a published and a required value; None when they are not comparable. */
  function EqualValues(published: CapabilityValue, required: CapabilityValue): Option<bool> {
    match CompareNumeric(published, required)
    case Some(order) => Some(order == 0)
    case None =>
      if published.TextValue? && required.TextValue? then Some(published.text == required.text)
      else if published.TextSet? && required.TextValue? then Some(required.text in published.texts)
      else if published.Boolean? && required.Boolean? then Some(published.flag == required.flag)
      else None
  }

  /** Order of a published and a required value; None when they are not orderable. */
  function OrderValues(published: CapabilityValue, required: CapabilityValue): Option<int> {
    match CompareNumeric(published, required)
    case Some(order) => Some(order)
    case None =>
      if published.TextValue? && required.TextValue? then
        Some(Versions.CompareVersions(published.text, required.text))
      else None
  }

  predicate Offers(published: CapabilityValue, candidate: Text) {
    || (published.TextValue? && published.text == candidate)
    || (published.TextSet? && candidate in published.texts)
  }

  function EvaluateValue(r: Requirement, published: CapabilityValue): Tri
    requires published.Known()
  {
    match r.comparator
    case Present => if published.Boolean? then TriFromBool(published.flag) else Yes
    case Absent => if published.Boolean? then TriNot(TriFromBool(published.flag)) else No
    case Equals =>
      (match EqualValues(published, r.value) case None => Tri.Unknown case Some(eq) => TriFromBool(eq))
    case NotEquals =>
      (match EqualValues(published, r.value) case None => Tri.Unknown case Some(eq) => TriFromBool(!eq))
    case AtLeast =>
      (match OrderValues(published, r.value) case None => Tri.Unknown case Some(o) => TriFromBool(o >= 0))
    case AtMost =>
      (match OrderValues(published, r.value) case None => Tri.Unknown case Some(o) => TriFromBool(o <= 0))
    case AnyOf =>
      if r.value.TextSet? then TriFromBool(exists t :: t in r.value.texts && Offers(published, t))
      else Tri.Unknown
    case AllOf =>
      if !r.value.TextSet? then Tri.Unknown
      else if !published.TextSet? then No
      else TriFromBool(forall t :: t in r.value.texts ==> t in published.texts)
  }

  function Evaluate(r: Requirement, observed: seq<CapabilityEntry>): Tri {
    match Find(observed, r.key)
    case None =>
      (match r.comparator case Present => No case Absent => Yes case _ => Tri.Unknown)
    case Some(entry) =>
      if !entry.value.Known() then Tri.Unknown else EvaluateValue(r, entry.value)
  }

  /** Opposite comparators give opposite answers, and "undecided" is its own opposite:
      missing evidence never turns into evidence for either side. */
  lemma OppositeComparators(r: Requirement, observed: seq<CapabilityEntry>)
    ensures Evaluate(r.(comparator := Absent), observed) == TriNot(Evaluate(r.(comparator := Present), observed))
    ensures Evaluate(r.(comparator := NotEquals), observed) == TriNot(Evaluate(r.(comparator := Equals), observed))
    ensures var low := Evaluate(r.(comparator := AtLeast), observed);
            var high := Evaluate(r.(comparator := AtMost), observed);
            && (low == Tri.Unknown <==> high == Tri.Unknown)
            && (low == No ==> high == Yes)
    ensures r.value.TextSet? && r.value.texts != [] && Evaluate(r.(comparator := AllOf), observed) == Yes
            ==> Evaluate(r.(comparator := AnyOf), observed) == Yes
  {
    hide Versions.CompareVersions;
    if r.value.TextSet? && r.value.texts != [] {
      assert r.value.texts[0] in r.value.texts;
    }
  }
}
