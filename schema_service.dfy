/**
 * MetadataSchemaService: the draft and publish life cycle of metadata schemas over the table
 * of stored schemas. The repository is the sequence of stored records in store order; a record
 * id is assigned when a record is first saved. Queries are functions of that table; the
 * operations that save or delete records are methods of a class holding it.
 */
module SchemaService {
  import opened Wrappers
  import opened SemanticVersions
  import opened MetadataSchemas
  import opened MetadataSchemaMapper
  import MetadataSchemaValidator
  import Sequences

  /**
   * Why a service call throws: a comparison of versions where one record is a draft
   * (NullPointerException), a referenced schema that is not stored (ResourceNotFoundException),
   * or a version string the SemanticVersion constructor rejects.
   */
  datatype ServiceError =
    | NullVersionCompared
    | SchemaNotFound(uuid: string, version: Option<string>)
    | InvalidVersion(error: ParseError)

  // ---------------------------------------------------------------------------------------
  // The repository

  /** The stored table as the service keeps it: ids assigned, distinct and below the next id;
   *  a record has a version string exactly when it has a version; at most one draft per uuid. */
  predicate ValidStore(store: seq<MetadataSchema>, nextId: nat) {
    && (forall k :: 0 <= k < |store| ==> store[k].id.Some? && store[k].id.value < nextId)
    && (forall i, j :: 0 <= i < j < |store| ==> store[i].id != store[j].id)
    && (forall k :: 0 <= k < |store| ==> (store[k].versionString.None? <==> store[k].version.None?))
    && (forall i, j :: 0 <= i < j < |store| && IsDraft(store[i]) && IsDraft(store[j]) ==> store[i].uuid != store[j].uuid)
  }

  /** findByUuid: the records of one uuid, in store order. */
  function FindByUuid(store: seq<MetadataSchema>, uuid: string): (r: seq<MetadataSchema>)
    ensures forall s :: s in r <==> s in store && s.uuid == uuid
    ensures |r| <= |store|
    ensures Sequences.IsSubsequence(r, store)
  {
    if store == [] then []
    else
      var init := store[..|store| - 1];
      var last := store[|store| - 1];
      assert store == init + [last];
      var r := FindByUuid(init, uuid);
      if last.uuid == uuid then
        Sequences.SubsequenceSnoc(r, init, last);
        r + [last]
      else
        Sequences.SubsequenceExtend(r, init, last);
        r
  }

  /** Position of the first record of the given uuid whose version string is the given one. */
  function FirstMatch(store: seq<MetadataSchema>, uuid: string, version: Option<string>): (r: Option<nat>)
    ensures r.None? <==> forall k :: 0 <= k < |store| ==> !(store[k].uuid == uuid && store[k].versionString == version)
    ensures r.Some? ==> && r.value < |store|
                        && store[r.value].uuid == uuid && store[r.value].versionString == version
                        && forall k :: 0 <= k < r.value ==> !(store[k].uuid == uuid && store[k].versionString == version)
  {
    if store == [] then None
    else if store[0].uuid == uuid && store[0].versionString == version then Some(0)
    else
      match FirstMatch(store[1..], uuid, version)
      case None => None
      case Some(i) => Some(i + 1)
  }

  /**
   * findByUuidAndVersion: the record of the given uuid and version string; the version None
   * finds the draft.
   */
  function FindByUuidAndVersion(store: seq<MetadataSchema>, uuid: string, version: Option<string>): (r: Option<MetadataSchema>)
    ensures r.None? <==> forall s :: s in store ==> !(s.uuid == uuid && s.versionString == version)
    ensures r.Some? ==> r.value in store && r.value.uuid == uuid && r.value.versionString == version
  {
    match FirstMatch(store, uuid, version)
    case None => None
    case Some(i) => Some(store[i])
  }

  /** Position of the record with the given id. */
  function IndexOfId(store: seq<MetadataSchema>, id: nat): (r: Option<nat>)
    ensures r.None? <==> forall k :: 0 <= k < |store| ==> store[k].id != Some(id)
    ensures r.Some? ==> r.value < |store| && store[r.value].id == Some(id)
  {
    if store == [] then None
    else if store[0].id == Some(id) then Some(0)
    else
      match IndexOfId(store[1..], id)
      case None => None
      case Some(i) => Some(i + 1)
  }

  /** With distinct ids, the record at position i is the one found by its id. */
  lemma IndexOfStoredId(store: seq<MetadataSchema>, nextId: nat, i: nat)
    requires ValidStore(store, nextId) && i < |store|
    ensures IndexOfId(store, store[i].id.value) == Some(i)
  {
  }

  /**
   * save: a record whose id is stored replaces that record in place; any other record is
   * appended under the next id.
   */
  function SaveInto(store: seq<MetadataSchema>, nextId: nat, s: MetadataSchema): (r: (seq<MetadataSchema>, nat))
    ensures s.id.Some? && IndexOfId(store, s.id.value).Some? ==>
              var i := IndexOfId(store, s.id.value).value;
              r.1 == nextId && |r.0| == |store| && r.0[i] == s &&
              forall k :: 0 <= k < |store| && k != i ==> r.0[k] == store[k]
    ensures (s.id.None? || IndexOfId(store, s.id.value).None?) ==>
              r.1 == nextId + 1 && r.0 == store + [s.(id := Some(nextId))]
  {
    var found := if s.id.Some? then IndexOfId(store, s.id.value) else None;
    match found
    case Some(i) => (store[i := s], nextId)
    case None => (store + [s.(id := Some(nextId))], nextId + 1)
  }

  /** delete: the table without the record of the given id, the others in order. */
  function RemoveById(store: seq<MetadataSchema>, id: Option<nat>): (r: seq<MetadataSchema>)
    ensures forall s :: s in r <==> s in store && s.id != id
    ensures Sequences.IsSubsequence(r, store)
  {
    if store == [] then []
    else
      var init := store[..|store| - 1];
      var last := store[|store| - 1];
      assert store == init + [last];
      var r := RemoveById(init, id);
      Sequences.SubsequenceExtend(r, init, last);
      if last.id == id then r else r + [last]
  }

  // ---------------------------------------------------------------------------------------
  // Ordering by version (SEMVER_COMPARATOR compares the versions of two records)

  /** A comparison of two records' versions throws unless both are published. */
  predicate Comparable(a: MetadataSchema, b: MetadataSchema) {
    !IsDraft(a) && !IsDraft(b)
  }

  /** The record a is at least as recent as b. */
  predicate NotOlder(a: MetadataSchema, b: MetadataSchema)
    requires Comparable(a, b)
  {
    CompareTo(a.version.value, b.version.value) >= 0
  }

  /**
   * The version a record is sorted by. A draft has none; the sorts below are only asked to
   * compare published records, so the value given to a draft is never looked at.
   */
  function VersionKey(s: MetadataSchema): SemanticVersion {
    if s.version.Some? then s.version.value else SemanticVersion(0, 0, 0)
  }

  /** Each element's key is at least its successor's. */
  predicate SortedBy<T>(xs: seq<T>, key: T -> SemanticVersion)
    decreases |xs|
  {
    |xs| <= 1 || (CompareTo(key(xs[0]), key(xs[1])) >= 0 && SortedBy(xs[1..], key))
  }

  /** In a list sorted by key every element's key is at least every later element's. */
  lemma {:induction false} SortedByPairwise<T>(xs: seq<T>, key: T -> SemanticVersion)
    requires SortedBy(xs, key)
    ensures forall i, j :: 0 <= i < j < |xs| ==> CompareTo(key(xs[i]), key(xs[j])) >= 0
    decreases |xs|
  {
    if |xs| >= 2 {
      var tail := xs[1..];
      SortedByPairwise(tail, key);
      forall i, j | 0 <= i < j < |xs| ensures CompareTo(key(xs[i]), key(xs[j])) >= 0 {
        if i == 0 {
          if j > 1 {
            assert tail[0] == xs[1] && tail[j - 1] == xs[j];
            CompareToTotalOrder(key(xs[j]), key(xs[1]), key(xs[0]));
          }
        } else {
          assert tail[i - 1] == xs[i] && tail[j - 1] == xs[j];
        }
      }
    }
  }

  /**
   * Insertion of one element into a sorted list after every element whose key is at least
   * its own, as a stable sort does; into an empty list nothing is compared.
   */
  function InsertBy<T>(x: T, xs: seq<T>, key: T -> SemanticVersion): (r: seq<T>)
    requires SortedBy(xs, key)
    ensures multiset(r) == multiset(xs) + multiset{x}
    ensures SortedBy(r, key)
    ensures |r| == |xs| + 1 && (r[0] == x || (xs != [] && r[0] == xs[0]))
    decreases |xs|
  {
    if xs == [] then [x]
    else if CompareTo(key(xs[0]), key(x)) >= 0 then
      assert xs == [xs[0]] + xs[1..];
      var rest := InsertBy(x, xs[1..], key);
      assert ([xs[0]] + rest)[1..] == rest;
      [xs[0]] + rest
    else
      assert ([x] + xs)[1..] == xs;
      [x] + xs
  }

  /** A stable insertion sort from the greatest key to the least. */
  function SortBy<T>(xs: seq<T>, key: T -> SemanticVersion): (r: seq<T>)
    ensures multiset(r) == multiset(xs)
    ensures SortedBy(r, key)
  {
    if xs == [] then []
    else
      var init := xs[..|xs| - 1];
      assert xs == init + [xs[|xs| - 1]];
      InsertBy(xs[|xs| - 1], SortBy(init, key), key)
  }

  /**
   * sorted(SEMVER_COMPARATOR.reversed()): the records from the most recent to the oldest. A
   * list of two or more records with a draft among them makes the comparator throw, so the sort
   * is asked only of lists that have no draft or at most one record.
   */
  function SortDescending(xs: seq<MetadataSchema>): (r: seq<MetadataSchema>)
    requires |xs| <= 1 || forall s :: s in xs ==> !IsDraft(s)
    ensures multiset(r) == multiset(xs)
    ensures SortedBy(r, VersionKey)
  {
    SortBy(xs, VersionKey)
  }

  /** The sorted records are a permutation of the input, each at least as recent as every later one. */
  lemma SortDescendingOrdered(xs: seq<MetadataSchema>)
    requires |xs| <= 1 || forall s :: s in xs ==> !IsDraft(s)
    ensures multiset(SortDescending(xs)) == multiset(xs)
    ensures forall i, j :: 0 <= i < j < |SortDescending(xs)| ==>
              Comparable(SortDescending(xs)[i], SortDescending(xs)[j]) && NotOlder(SortDescending(xs)[i], SortDescending(xs)[j])
  {
    var r := SortDescending(xs);
    SortedByPairwise(r, VersionKey);
    forall s | s in r ensures s in xs {
      assert s in multiset(r);
    }
    if |r| >= 2 {
      assert |xs| == |multiset(xs)| == |multiset(r)| == |r|;
      forall i, j | 0 <= i < j < |r| ensures Comparable(r[i], r[j]) && NotOlder(r[i], r[j]) {
        assert r[i] in r && r[j] in r;
      }
    }
  }

  /**
   * stream().max(SEMVER_COMPARATOR) over a non-empty list: the records are folded from the
   * left, the running maximum kept unless the next record is strictly more recent. The result
   * is the position of the first most recent record.
   */
  function MaxVersionIndex(xs: seq<MetadataSchema>): (i: nat)
    requires |xs| >= 1
    requires |xs| == 1 || forall s :: s in xs ==> !IsDraft(s)
    ensures i < |xs|
    ensures |xs| >= 2 ==> forall k :: 0 <= k < |xs| ==> Comparable(xs[i], xs[k]) && NotOlder(xs[i], xs[k])
    ensures |xs| >= 2 ==> forall k :: 0 <= k < i ==> !NotOlder(xs[k], xs[i])
  {
    assert forall k :: 0 <= k < |xs| ==> xs[k] in xs;
    MaxIndexBy(xs, VersionKey)
  }

  /** The position of the first element whose key is at least every element's key. */
  function MaxIndexBy<T>(xs: seq<T>, key: T -> SemanticVersion): (i: nat)
    requires |xs| >= 1
    ensures i < |xs|
    ensures forall k :: 0 <= k < |xs| ==> CompareTo(key(xs[i]), key(xs[k])) >= 0
    ensures forall k :: 0 <= k < i ==> CompareTo(key(xs[k]), key(xs[i])) < 0
  {
    if |xs| == 1 then 0
    else
      var init := xs[..|xs| - 1];
      var last := xs[|xs| - 1];
      var m := MaxIndexBy(init, key);
      assert init[m] == xs[m];
      assert forall k :: 0 <= k < |init| ==> init[k] == xs[k];
      if CompareTo(key(xs[m]), key(last)) >= 0 then m
      else
        forall k | 0 <= k < |xs| - 1 ensures CompareTo(key(last), key(xs[k])) >= 0 {
          CompareToTotalOrder(key(last), key(xs[m]), key(xs[k]));
        }
        |xs| - 1
  }

  // ---------------------------------------------------------------------------------------
  // Queries

  /** The uuids of the stored records. */
  function UuidSet(store: seq<MetadataSchema>): set<string> {
    set s | s in store :: s.uuid
  }

  /** The uuids of the stored records, in store order. */
  function Uuids(store: seq<MetadataSchema>): (r: seq<string>)
    ensures |r| == |store| && forall k :: 0 <= k < |store| ==> r[k] == store[k].uuid
    ensures forall u :: u in r <==> u in UuidSet(store)
  {
    var r := seq(|store|, k requires 0 <= k < |store| => store[k].uuid);
    forall u | u in UuidSet(store) ensures u in r {
      var s :| s in store && s.uuid == u;
      var k :| 0 <= k < |store| && store[k] == s;
      assert r[k] == u;
    }
    r
  }

  /** The versions of one uuid can be sorted: at most one record, or no draft among them. */
  predicate Sortable(store: seq<MetadataSchema>, uuid: string) {
    var group := FindByUuid(store, uuid);
    |group| <= 1 || forall s :: s in group ==> !IsDraft(s)
  }

  /** Lists with the same elements counted with multiplicity have the same members and length. */
  lemma SameMembers(a: seq<MetadataSchema>, b: seq<MetadataSchema>)
    requires multiset(a) == multiset(b)
    ensures |a| == |b| && forall s :: s in a <==> s in b
  {
    assert |a| == |multiset(a)| && |b| == |multiset(b)|;
    forall s ensures s in a <==> s in b {
      assert s in a <==> s in multiset(a);
      assert s in b <==> s in multiset(b);
    }
  }

  /** A stored uuid has records, and its sorted records start with one of them. */
  lemma SortedGroupHead(store: seq<MetadataSchema>, u: string)
    requires u in UuidSet(store)
    ensures FindByUuid(store, u) != []
    ensures var g := SortBy(FindByUuid(store, u), VersionKey); g != [] && g[0].uuid == u
  {
    var s :| s in store && s.uuid == u;
    assert s in FindByUuid(store, u);
    var g := SortBy(FindByUuid(store, u), VersionKey);
    SameMembers(g, FindByUuid(store, u));
    assert g[0] in g;
  }

  /** The records of each uuid of the list, in the order of the list. */
  function GroupsOf(store: seq<MetadataSchema>, uuids: seq<string>): (r: seq<seq<MetadataSchema>>)
    ensures |r| == |uuids| && forall k :: 0 <= k < |uuids| ==> r[k] == FindByUuid(store, uuids[k])
  {
    if uuids == [] then [] else [FindByUuid(store, uuids[0])] + GroupsOf(store, uuids[1..])
  }

  /** Each list sorted by the key. */
  function SortEachBy<T>(groups: seq<seq<T>>, key: T -> SemanticVersion): (r: seq<seq<T>>)
    ensures |r| == |groups| && forall k :: 0 <= k < |groups| ==> r[k] == SortBy(groups[k], key)
  {
    if groups == [] then [] else [SortBy(groups[0], key)] + SortEachBy(groups[1..], key)
  }

  /** The bundle of each non-empty list of records. */
  function ToBundleDTOs(groups: seq<seq<MetadataSchema>>): (r: seq<MetadataSchemaBundleDTO>)
    requires forall k :: 0 <= k < |groups| ==> groups[k] != []
    ensures |r| == |groups| && forall k :: 0 <= k < |groups| ==> r[k] == ToBundleDTO(groups[k])
    ensures forall k :: 0 <= k < |groups| ==> r[k].uuid == groups[k][0].uuid
  {
    if groups == [] then [] else [ToBundleDTO(groups[0])] + ToBundleDTOs(groups[1..])
  }

  /**
   * getAllBundles: one bundle per stored uuid, each listing that uuid's records from the most
   * recent version to the oldest. Sorting throws when a uuid with two or more records has a
   * draft. The bundles come in order of first appearance in the store.
   */
  function GetAllBundles(store: seq<MetadataSchema>): (r: Result<seq<MetadataSchemaBundleDTO>, ServiceError>)
    ensures r.Success? <==> forall u :: u in UuidSet(store) ==> Sortable(store, u)
    ensures r.Failure? ==> r.error == NullVersionCompared
    ensures r.Success? ==>
              && (set b | b in r.value :: b.uuid) == UuidSet(store)
              && (forall i, j :: 0 <= i < j < |r.value| ==> r.value[i].uuid != r.value[j].uuid)
              && (forall b :: b in r.value ==>
                    Sortable(store, b.uuid) && FindByUuid(store, b.uuid) != [] &&
                    b == ToBundleDTO(SortDescending(FindByUuid(store, b.uuid))))
  {
    var uuids := Sequences.Dedup(Uuids(store));
    if exists k :: 0 <= k < |uuids| && !Sortable(store, uuids[k]) then
      Failure(NullVersionCompared)
    else
      var groups := SortEachBy(GroupsOf(store, uuids), VersionKey);
      GroupHeads(store, uuids, groups);
      var bundles := ToBundleDTOs(groups);
      BundleUuids(store, uuids, bundles);
      BundleContents(store, uuids, groups, bundles);
      Success(bundles)
  }

  /** The sorted group of each stored uuid is non-empty and starts with a record of that uuid. */
  lemma GroupHeads(store: seq<MetadataSchema>, uuids: seq<string>, groups: seq<seq<MetadataSchema>>)
    requires forall u :: u in uuids ==> u in UuidSet(store)
    requires |groups| == |uuids| && forall k :: 0 <= k < |uuids| ==> groups[k] == SortBy(FindByUuid(store, uuids[k]), VersionKey)
    ensures forall k :: 0 <= k < |uuids| ==> FindByUuid(store, uuids[k]) != [] && groups[k] != [] && groups[k][0].uuid == uuids[k]
  {
    forall k | 0 <= k < |uuids| ensures FindByUuid(store, uuids[k]) != [] && groups[k] != [] && groups[k][0].uuid == uuids[k] {
      assert uuids[k] in uuids;
      SortedGroupHead(store, uuids[k]);
    }
  }

  /** Each bundle made from the sorted group of its uuid is that uuid's sorted bundle. */
  lemma BundleContents(store: seq<MetadataSchema>, uuids: seq<string>, groups: seq<seq<MetadataSchema>>, bundles: seq<MetadataSchemaBundleDTO>)
    requires |groups| == |uuids| && |bundles| == |uuids|
    requires forall k :: 0 <= k < |uuids| ==>
               && Sortable(store, uuids[k]) && FindByUuid(store, uuids[k]) != []
               && groups[k] == SortBy(FindByUuid(store, uuids[k]), VersionKey) && groups[k] != []
               && bundles[k] == ToBundleDTO(groups[k]) && bundles[k].uuid == uuids[k]
    ensures forall b :: b in bundles ==>
              Sortable(store, b.uuid) && FindByUuid(store, b.uuid) != [] && b == ToBundleDTO(SortDescending(FindByUuid(store, b.uuid)))
  {
    forall b | b in bundles
      ensures Sortable(store, b.uuid) && FindByUuid(store, b.uuid) != [] && b == ToBundleDTO(SortDescending(FindByUuid(store, b.uuid)))
    {
      var k :| 0 <= k < |bundles| && bundles[k] == b;
    }
  }

  /** Bundles that carry the distinct stored uuids one by one carry each stored uuid once. */
  lemma BundleUuids(store: seq<MetadataSchema>, uuids: seq<string>, bundles: seq<MetadataSchemaBundleDTO>)
    requires forall u :: u in uuids <==> u in UuidSet(store)
    requires Sequences.Distinct(uuids)
    requires |bundles| == |uuids| && forall k :: 0 <= k < |uuids| ==> bundles[k].uuid == uuids[k]
    ensures (set b | b in bundles :: b.uuid) == UuidSet(store)
    ensures forall i, j :: 0 <= i < j < |bundles| ==> bundles[i].uuid != bundles[j].uuid
  {
    forall u | u in UuidSet(store) ensures u in (set b | b in bundles :: b.uuid) {
      var k :| 0 <= k < |uuids| && uuids[k] == u;
      assert bundles[k] in bundles;
    }
    forall b | b in bundles ensures b.uuid in UuidSet(store) {
      var k :| 0 <= k < |bundles| && bundles[k] == b;
      assert uuids[k] in uuids;
    }
  }

  /** getBundle: the records of one uuid in store order, or nothing when the uuid is not stored. */
  function GetBundle(store: seq<MetadataSchema>, uuid: string): (r: Option<MetadataSchemaBundleDTO>)
    ensures r.None? <==> forall s :: s in store ==> s.uuid != uuid
    ensures r.Some? ==>
              && r.value.uuid == uuid
              && (r.value.hasDraft <==> exists s :: s in store && s.uuid == uuid && IsDraft(s))
              && |r.value.versions| == |FindByUuid(store, uuid)|
              && forall k :: 0 <= k < |r.value.versions| ==> r.value.versions[k] == ToVersionDTO(FindByUuid(store, uuid)[k])
  {
    var group := FindByUuid(store, uuid);
    if group == [] then None
    else
      assert group[0] in group;
      Some(ToBundleDTO(group))
  }

  /**
   * getMostRecentVersion: the first record of the uuid with the greatest version; nothing for
   * an unknown uuid. With two or more records and a draft among them the comparator throws.
   */
  function MostRecentVersion(store: seq<MetadataSchema>, uuid: string): (r: Result<Option<MetadataSchema>, ServiceError>)
    ensures r.Failure? <==> !Sortable(store, uuid)
    ensures r.Failure? ==> r.error == NullVersionCompared
    ensures r == Success(None) <==> forall s :: s in store ==> s.uuid != uuid
    ensures r.Success? && r.value.Some? ==>
              && r.value.value in store && r.value.value.uuid == uuid
              && (|FindByUuid(store, uuid)| >= 2 ==>
                    forall s :: s in store && s.uuid == uuid ==> Comparable(r.value.value, s) && NotOlder(r.value.value, s))
  {
    var group := FindByUuid(store, uuid);
    if group == [] then Success(None)
    else if !Sortable(store, uuid) then Failure(NullVersionCompared)
    else
      var m := group[MaxVersionIndex(group)];
      assert forall s :: s in group ==> exists k :: 0 <= k < |group| && group[k] == s;
      Success(Some(m))
  }

  /** The published records of a list, in order. */
  function PublishedOnly(xs: seq<MetadataSchema>): (r: seq<MetadataSchema>)
    ensures forall s :: s in r <==> s in xs && !IsDraft(s)
  {
    if xs == [] then []
    else
      var init := xs[..|xs| - 1];
      var last := xs[|xs| - 1];
      assert xs == init + [last];
      PublishedOnly(init) + (if IsDraft(last) then [] else [last])
  }

  /** Without drafts nothing is dropped. */
  lemma {:induction false} PublishedOnlyAll(xs: seq<MetadataSchema>)
    requires forall s :: s in xs ==> !IsDraft(s)
    ensures PublishedOnly(xs) == xs
  {
    if xs != [] {
      var init := xs[..|xs| - 1];
      assert xs == init + [xs[|xs| - 1]];
      PublishedOnlyAll(init);
    }
  }

  /**
   * The most recent published record of the uuid, the first one of the greatest version;
   * drafts are never compared, so this never throws.
   */
  function MostRecentPublished(store: seq<MetadataSchema>, uuid: string): (r: Option<MetadataSchema>)
    ensures r.None? <==> forall s :: s in store && s.uuid == uuid ==> IsDraft(s)
    ensures r.Some? ==>
              && r.value in store && r.value.uuid == uuid && !IsDraft(r.value)
              && forall s :: s in store && s.uuid == uuid && !IsDraft(s) ==> NotOlder(r.value, s)
  {
    var published := PublishedOnly(FindByUuid(store, uuid));
    if published == [] then None
    else
      var m := published[MaxVersionIndex(published)];
      assert m in published;
      assert forall s :: s in published ==> exists k :: 0 <= k < |published| && published[k] == s;
      Some(m)
  }

  /** Where a uuid has no draft, the most recent version is the most recent published one. */
  lemma MostRecentWithoutDraft(store: seq<MetadataSchema>, uuid: string)
    requires forall s :: s in store && s.uuid == uuid ==> !IsDraft(s)
    ensures MostRecentVersion(store, uuid) == Success(MostRecentPublished(store, uuid))
  {
    PublishedOnlyAll(FindByUuid(store, uuid));
  }

  /**
   * getDraft: the stored draft of the uuid; failing that, the most recent version shown as a
   * draft; nothing for an unknown uuid.
   */
  function GetDraft(store: seq<MetadataSchema>, uuid: string): (r: Result<Option<MetadataSchemaDetailDTO>, ServiceError>)
    ensures FindByUuidAndVersion(store, uuid, None).Some? ==>
              r == Success(Some(ToDetailDTO(FindByUuidAndVersion(store, uuid, None).value)))
    ensures FindByUuidAndVersion(store, uuid, None).None? ==>
              match MostRecentVersion(store, uuid)
              case Failure(e) => r == Failure(e)
              case Success(None) => r == Success(None)
              case Success(Some(m)) => r == Success(Some(ToDraftDetailDTO(m)))
  {
    match FindByUuidAndVersion(store, uuid, None)
    case Some(draft) => Success(Some(ToDetailDTO(draft)))
    case None =>
      match MostRecentVersion(store, uuid)
      case Failure(e) => Failure(e)
      case Success(mostRecent) =>
        if mostRecent.Some? then Success(Some(ToDraftDetailDTO(mostRecent.value))) else Success(None)
  }

  /**
   * On a valid table getDraft never throws: it is empty exactly for an unknown uuid, and
   * otherwise a draft view.
   */
  lemma GetDraftOnValidStore(store: seq<MetadataSchema>, nextId: nat, uuid: string)
    requires ValidStore(store, nextId)
    ensures GetDraft(store, uuid).Success?
    ensures GetDraft(store, uuid).value.None? <==> forall s :: s in store ==> s.uuid != uuid
    ensures GetDraft(store, uuid).value.Some? ==> GetDraft(store, uuid).value.value.draft
  {
    if FindByUuidAndVersion(store, uuid, None).None? {
      forall s | s in store && s.uuid == uuid ensures !IsDraft(s) {
        var k :| 0 <= k < |store| && store[k] == s;
      }
      MostRecentWithoutDraft(store, uuid);
    } else {
      var d := FindByUuidAndVersion(store, uuid, None).value;
      var k :| 0 <= k < |store| && store[k] == d;
    }
  }

  /** getDetail: the record of the given uuid and version string, in the detail view. */
  function GetDetail(store: seq<MetadataSchema>, uuid: string, version: Option<string>): (r: Option<MetadataSchemaDetailDTO>)
    ensures r.None? <==> forall s :: s in store ==> !(s.uuid == uuid && s.versionString == version)
    ensures r.Some? ==> r.value.uuid == uuid && r.value.version == version &&
                        exists s :: s in store && s.uuid == uuid && s.versionString == version && r.value == ToDetailDTO(s)
  {
    match FindByUuidAndVersion(store, uuid, version)
    case None => None
    case Some(s) => Some(ToDetailDTO(s))
  }

  /** A (uuid, version) pair names a stored record. */
  predicate Resolves(store: seq<MetadataSchema>, uuid: string, version: Option<string>) {
    FindByUuidAndVersion(store, uuid, version).Some?
  }

  /**
   * extractExtendsSchemas: the stored record of every parent coordinate, in order; the first
   * coordinate not stored makes it throw.
   */
  function ExtractExtendsSchemas(store: seq<MetadataSchema>, coords: seq<MetadataSchemaCoordsDTO>): (r: Result<seq<MetadataSchema>, ServiceError>)
    ensures r.Success? <==> forall k :: 0 <= k < |coords| ==> Resolves(store, coords[k].uuid, coords[k].version)
    ensures r.Success? ==> |r.value| == |coords| && forall k :: 0 <= k < |coords| ==>
              Some(r.value[k]) == FindByUuidAndVersion(store, coords[k].uuid, coords[k].version)
    ensures r.Failure? ==> exists k :: (&& 0 <= k < |coords| && !Resolves(store, coords[k].uuid, coords[k].version)
                                        && r.error == SchemaNotFound(coords[k].uuid, coords[k].version)
                                        && forall j :: 0 <= j < k ==> Resolves(store, coords[j].uuid, coords[j].version))
  {
    if coords == [] then Success([])
    else
      match FindByUuidAndVersion(store, coords[0].uuid, coords[0].version)
      case None =>
        assert !Resolves(store, coords[0].uuid, coords[0].version);
        Failure(SchemaNotFound(coords[0].uuid, coords[0].version))
      case Some(schema) =>
        match ExtractExtendsSchemas(store, coords[1..])
        case Failure(e) =>
          ParentNotFoundLater(store, coords, e);
          Failure(e)
        case Success(rest) =>
          assert forall k :: 1 <= k < |coords| ==> coords[k] == coords[1..][k - 1];
          Success([schema] + rest)
  }

  /**
   * extractChildren: a child entry for every child DTO, pointing at the stored record its
   * coordinates name; the first coordinate not stored makes it throw.
   */
  function ExtractChildren(store: seq<MetadataSchema>, dtos: seq<MetadataSchemaChildDTO>): (r: Result<seq<MetadataSchemaChild>, ServiceError>)
    ensures r.Success? <==> forall k :: 0 <= k < |dtos| ==> Resolves(store, dtos[k].schemaUuid, dtos[k].schemaVersion)
    ensures r.Success? ==> |r.value| == |dtos| && forall k :: 0 <= k < |dtos| ==>
              r.value[k] == FromChildDTO(dtos[k], FindByUuidAndVersion(store, dtos[k].schemaUuid, dtos[k].schemaVersion).value)
    ensures r.Failure? ==> exists k :: (&& 0 <= k < |dtos| && !Resolves(store, dtos[k].schemaUuid, dtos[k].schemaVersion)
                                        && r.error == SchemaNotFound(dtos[k].schemaUuid, dtos[k].schemaVersion)
                                        && forall j :: 0 <= j < k ==> Resolves(store, dtos[j].schemaUuid, dtos[j].schemaVersion))
  {
    if dtos == [] then Success([])
    else
      match FindByUuidAndVersion(store, dtos[0].schemaUuid, dtos[0].schemaVersion)
      case None =>
        assert !Resolves(store, dtos[0].schemaUuid, dtos[0].schemaVersion);
        Failure(SchemaNotFound(dtos[0].schemaUuid, dtos[0].schemaVersion))
      case Some(schema) =>
        match ExtractChildren(store, dtos[1..])
        case Failure(e) =>
          ChildNotFoundLater(store, dtos, e);
          Failure(e)
        case Success(rest) =>
          assert forall k :: 1 <= k < |dtos| ==> dtos[k] == dtos[1..][k - 1];
          Success([FromChildDTO(dtos[0], schema)] + rest)
  }

  /** A parent missing after a resolved first coordinate is the first one missing overall. */
  lemma ParentNotFoundLater(store: seq<MetadataSchema>, coords: seq<MetadataSchemaCoordsDTO>, e: ServiceError)
    requires coords != [] && Resolves(store, coords[0].uuid, coords[0].version)
    requires exists k :: (&& 0 <= k < |coords[1..]| && !Resolves(store, coords[1..][k].uuid, coords[1..][k].version)
                          && e == SchemaNotFound(coords[1..][k].uuid, coords[1..][k].version)
                          && forall j :: 0 <= j < k ==> Resolves(store, coords[1..][j].uuid, coords[1..][j].version))
    ensures exists k :: (&& 0 <= k < |coords| && !Resolves(store, coords[k].uuid, coords[k].version)
                         && e == SchemaNotFound(coords[k].uuid, coords[k].version)
                         && forall j :: 0 <= j < k ==> Resolves(store, coords[j].uuid, coords[j].version))
  {
    var k :| (&& 0 <= k < |coords[1..]| && !Resolves(store, coords[1..][k].uuid, coords[1..][k].version)
              && e == SchemaNotFound(coords[1..][k].uuid, coords[1..][k].version)
              && forall j :: 0 <= j < k ==> Resolves(store, coords[1..][j].uuid, coords[1..][j].version));
    assert coords[k + 1] == coords[1..][k];
    forall j | 0 <= j < k + 1
      ensures Resolves(store, coords[j].uuid, coords[j].version)
    {
      if j > 0 {
        assert coords[j] == coords[1..][j - 1];
      }
    }
  }

  /** A child missing after a resolved first coordinate is the first one missing overall. */
  lemma ChildNotFoundLater(store: seq<MetadataSchema>, dtos: seq<MetadataSchemaChildDTO>, e: ServiceError)
    requires dtos != [] && Resolves(store, dtos[0].schemaUuid, dtos[0].schemaVersion)
    requires exists k :: (&& 0 <= k < |dtos[1..]| && !Resolves(store, dtos[1..][k].schemaUuid, dtos[1..][k].schemaVersion)
                          && e == SchemaNotFound(dtos[1..][k].schemaUuid, dtos[1..][k].schemaVersion)
                          && forall j :: 0 <= j < k ==> Resolves(store, dtos[1..][j].schemaUuid, dtos[1..][j].schemaVersion))
    ensures exists k :: (&& 0 <= k < |dtos| && !Resolves(store, dtos[k].schemaUuid, dtos[k].schemaVersion)
                         && e == SchemaNotFound(dtos[k].schemaUuid, dtos[k].schemaVersion)
                         && forall j :: 0 <= j < k ==> Resolves(store, dtos[j].schemaUuid, dtos[j].schemaVersion))
  {
    var k :| (&& 0 <= k < |dtos[1..]| && !Resolves(store, dtos[1..][k].schemaUuid, dtos[1..][k].schemaVersion)
              && e == SchemaNotFound(dtos[1..][k].schemaUuid, dtos[1..][k].schemaVersion)
              && forall j :: 0 <= j < k ==> Resolves(store, dtos[1..][j].schemaUuid, dtos[1..][j].schemaVersion));
    assert dtos[k + 1] == dtos[1..][k];
    forall j | 0 <= j < k + 1
      ensures Resolves(store, dtos[j].schemaUuid, dtos[j].schemaVersion)
    {
      if j > 0 {
        assert dtos[j] == dtos[1..][j - 1];
      }
    }
  }

  // ---------------------------------------------------------------------------------------
  // The records the state-changing operations save

  /**
   * createDraft before saving: a new draft under the given uuid with its parents and children
   * resolved; parents are resolved first, so a missing parent is the error reported.
   */
  function CreatedDraft(store: seq<MetadataSchema>, dto: MetadataSchemaChangeDTO, newUuid: string): (r: Result<MetadataSchema, ServiceError>)
    ensures r.Success? <==> ExtractExtendsSchemas(store, dto.extendsSchemas).Success? && ExtractChildren(store, dto.children).Success?
    ensures ExtractExtendsSchemas(store, dto.extendsSchemas).Failure? ==> r == Failure(ExtractExtendsSchemas(store, dto.extendsSchemas).error)
    ensures ExtractExtendsSchemas(store, dto.extendsSchemas).Success? && ExtractChildren(store, dto.children).Failure? ==>
              r == Failure(ExtractChildren(store, dto.children).error)
    ensures r.Success? ==>
              && IsDraft(r.value) && r.value.versionString.None? && r.value.previousVersion.None? && r.value.id.None?
              && r.value.uuid == newUuid
              && r.value == FromChangeDTO(dto, newUuid, ExtractExtendsSchemas(store, dto.extendsSchemas).value,
                                          ExtractChildren(store, dto.children).value)
  {
    match ExtractExtendsSchemas(store, dto.extendsSchemas)
    case Failure(e) => Failure(e)
    case Success(extendsSchemas) =>
      match ExtractChildren(store, dto.children)
      case Failure(e) => Failure(e)
      case Success(children) => Success(FromChangeDTO(dto, newUuid, extendsSchemas, children))
  }

  /**
   * updateDraft before saving, as the source writes it: the previous version is the most
   * recent record of the uuid, the draft itself included.
   */
  function UpdatedDraftAsWritten(store: seq<MetadataSchema>, uuid: string, dto: MetadataSchemaChangeDTO): (r: Result<Option<MetadataSchema>, ServiceError>)
    ensures r == Success(None) <==> FindByUuidAndVersion(store, uuid, None).None?
    ensures r.Failure? <==>
              FindByUuidAndVersion(store, uuid, None).Some? &&
              !(Sortable(store, uuid) &&
                ExtractExtendsSchemas(store, dto.extendsSchemas).Success? && ExtractChildren(store, dto.children).Success?)
    ensures FindByUuidAndVersion(store, uuid, None).Some? && !Sortable(store, uuid) ==> r == Failure(NullVersionCompared)
    ensures FindByUuidAndVersion(store, uuid, None).Some? && Sortable(store, uuid) &&
            ExtractExtendsSchemas(store, dto.extendsSchemas).Failure? ==>
              r == Failure(ExtractExtendsSchemas(store, dto.extendsSchemas).error)
    ensures FindByUuidAndVersion(store, uuid, None).Some? && Sortable(store, uuid) &&
            ExtractExtendsSchemas(store, dto.extendsSchemas).Success? && ExtractChildren(store, dto.children).Failure? ==>
              r == Failure(ExtractChildren(store, dto.children).error)
    ensures r.Success? && r.value.Some? ==>
              var draft := FindByUuidAndVersion(store, uuid, None).value;
              && r.value.value == FromChangeDTOForDraft(draft, dto, MostRecentVersion(store, uuid).value,
                                                        ExtractExtendsSchemas(store, dto.extendsSchemas).value,
                                                        ExtractChildren(store, dto.children).value)
              && r.value.value.id == draft.id && r.value.value.uuid == uuid && IsDraft(r.value.value)
              && r.value.value.previousVersion.Some? && r.value.value.previousVersion.value.uuid == uuid
  {
    match FindByUuidAndVersion(store, uuid, None)
    case None => Success(None)
    case Some(draft) =>
      match MostRecentVersion(store, uuid)
      case Failure(e) => Failure(e)
      case Success(previousVersion) =>
        match ExtractExtendsSchemas(store, dto.extendsSchemas)
        case Failure(e) => Failure(e)
        case Success(extendsSchemas) =>
          match ExtractChildren(store, dto.children)
          case Failure(e) => Failure(e)
          case Success(children) => Success(Some(FromChangeDTOForDraft(draft, dto, previousVersion, extendsSchemas, children)))
  }

  /**
   * updateDraft before saving, corrected: the draft with the client's content and, as its
   * previous version, the most recent published record of the uuid.
   */
  function UpdatedDraft(store: seq<MetadataSchema>, uuid: string, dto: MetadataSchemaChangeDTO): (r: Result<Option<MetadataSchema>, ServiceError>)
    ensures r == Success(None) <==> FindByUuidAndVersion(store, uuid, None).None?
    ensures r.Failure? <==>
              FindByUuidAndVersion(store, uuid, None).Some? &&
              !(ExtractExtendsSchemas(store, dto.extendsSchemas).Success? && ExtractChildren(store, dto.children).Success?)
    ensures FindByUuidAndVersion(store, uuid, None).Some? && ExtractExtendsSchemas(store, dto.extendsSchemas).Failure? ==>
              r == Failure(ExtractExtendsSchemas(store, dto.extendsSchemas).error)
    ensures FindByUuidAndVersion(store, uuid, None).Some? && ExtractExtendsSchemas(store, dto.extendsSchemas).Success? &&
            ExtractChildren(store, dto.children).Failure? ==>
              r == Failure(ExtractChildren(store, dto.children).error)
    ensures r.Success? && r.value.Some? ==>
              var draft := FindByUuidAndVersion(store, uuid, None).value;
              && r.value.value == FromChangeDTOForDraft(draft, dto, MostRecentPublished(store, uuid),
                                                        ExtractExtendsSchemas(store, dto.extendsSchemas).value,
                                                        ExtractChildren(store, dto.children).value)
              && r.value.value.id == draft.id && r.value.value.uuid == uuid && IsDraft(r.value.value)
              && (r.value.value.previousVersion.None? || !IsDraft(r.value.value.previousVersion.value))
  {
    match FindByUuidAndVersion(store, uuid, None)
    case None => Success(None)
    case Some(draft) =>
      var previousVersion := MostRecentPublished(store, uuid);
      match ExtractExtendsSchemas(store, dto.extendsSchemas)
      case Failure(e) => Failure(e)
      case Success(extendsSchemas) =>
        match ExtractChildren(store, dto.children)
        case Failure(e) => Failure(e)
        case Success(children) => Success(Some(FromChangeDTOForDraft(draft, dto, previousVersion, extendsSchemas, children)))
  }

  /** A draft updated by the corrected rule always passes the validator's version check. */
  lemma UpdatedDraftPassesVersionCheck(store: seq<MetadataSchema>, uuid: string, dto: MetadataSchemaChangeDTO,
                                       isSuccessor: (SemanticVersion, SemanticVersion) -> bool)
    requires UpdatedDraft(store, uuid, dto).Success? && UpdatedDraft(store, uuid, dto).value.Some?
    ensures MetadataSchemaValidator.ValidateVersion(UpdatedDraft(store, uuid, dto).value.value, isSuccessor).None?
  {
  }

  /** A lone draft, and a change that references nothing. */
  const loneDraft := MetadataSchema(Some(0), "u", None, None, "p", "n", "", "d", false, None, [], [], [])
  const plainChange := MetadataSchemaChangeDTO("n", "d", false, "", "p", [], [], [])

  /**
   * As written, updating a lone draft makes the draft its own previous version, which the
   * validator rejects.
   */
  lemma UpdateLoneDraftAsWritten(isSuccessor: (SemanticVersion, SemanticVersion) -> bool)
    ensures var r := UpdatedDraftAsWritten([loneDraft], "u", plainChange);
            && r.Success? && r.value.Some? && r.value.value.previousVersion == Some(loneDraft)
            && MetadataSchemaValidator.ValidateVersion(r.value.value, isSuccessor) == Some(MetadataSchemaValidator.DraftOnDraft("u"))
  {
    assert FindByUuidAndVersion([loneDraft], "u", None) == Some(loneDraft);
    assert FindByUuid([loneDraft], "u") == [loneDraft];
  }

  /** Corrected, updating a lone draft gives it no previous version. */
  lemma UpdateLoneDraftCorrected()
    ensures var r := UpdatedDraft([loneDraft], "u", plainChange);
            r.Success? && r.value.Some? && r.value.value.previousVersion.None?
  {
    assert FindByUuidAndVersion([loneDraft], "u", None) == Some(loneDraft);
    assert FindByUuid([loneDraft], "u") == [loneDraft];
  }

  /** A published version 1.0.0 of the lone draft's uuid. */
  const firstRelease := loneDraft.(id := Some(1), versionString := Some("1.0.0"), version := Some(SemanticVersion(1, 0, 0)))

  /**
   * As written, updating a draft whose uuid has a published version compares the draft's
   * missing version and throws.
   */
  lemma UpdateDraftWithReleaseAsWritten()
    ensures UpdatedDraftAsWritten([firstRelease, loneDraft], "u", plainChange) == Failure(NullVersionCompared)
  {
    assert FindByUuidAndVersion([firstRelease, loneDraft], "u", None) == Some(loneDraft);
    assert FindByUuid([firstRelease, loneDraft], "u") == [firstRelease, loneDraft];
    assert !Sortable([firstRelease, loneDraft], "u");
  }

  /** Corrected, a draft whose uuid has a published version is linked to that version. */
  lemma UpdateDraftWithReleaseCorrected()
    ensures var r := UpdatedDraft([firstRelease, loneDraft], "u", plainChange);
            r.Success? && r.value.Some? && r.value.value.previousVersion == Some(firstRelease)
  {
    var store := [firstRelease, loneDraft];
    assert FindByUuidAndVersion(store, "u", None) == Some(loneDraft);
    assert firstRelease in store && !IsDraft(firstRelease) && IsDraft(loneDraft);
    assert MostRecentPublished(store, "u") == Some(firstRelease);
    assert ExtractExtendsSchemas(store, []) == Success([]);
    assert ExtractChildren(store, []) == Success([]);
  }

  /**
   * publishDraft before saving: the uuid's draft with the client's version and description;
   * a version string that does not parse makes it throw.
   */
  function PublishedDraft(store: seq<MetadataSchema>, uuid: string, dto: MetadataSchemaPublishDTO): (r: Result<Option<MetadataSchema>, ServiceError>)
    ensures r == Success(None) <==> FindByUuidAndVersion(store, uuid, None).None?
    ensures r.Failure? <==> FindByUuidAndVersion(store, uuid, None).Some? && Parse(dto.version).Failure?
    ensures r.Failure? ==> r.error == InvalidVersion(Parse(dto.version).error)
    ensures r.Success? && r.value.Some? ==>
              var draft := FindByUuidAndVersion(store, uuid, None).value;
              && !IsDraft(r.value.value) && r.value.value.versionString == Some(dto.version)
              && r.value.value == FromPublishDTO(draft, dto).value
              && r.value.value.id == draft.id && r.value.value.uuid == uuid
  {
    match FindByUuidAndVersion(store, uuid, None)
    case None => Success(None)
    case Some(draft) =>
      match FromPublishDTO(draft, dto)
      case Failure(e) => Failure(InvalidVersion(e))
      case Success(published) => Success(Some(published))
  }

  // ---------------------------------------------------------------------------------------
  // The table stays valid

  /**
   * The coordinates toCoordsDTO gives a stored record name a stored record of the same uuid
   * and version string; for a draft, that record itself.
   */
  lemma StoredCoordsResolve(store: seq<MetadataSchema>, nextId: nat, s: MetadataSchema)
    requires ValidStore(store, nextId) && s in store
    ensures var c := ToCoordsDTO(s);
            && c.uuid == s.uuid && c.version == s.versionString
            && Resolves(store, c.uuid, c.version)
            && FindByUuidAndVersion(store, c.uuid, c.version).value.uuid == s.uuid
            && FindByUuidAndVersion(store, c.uuid, c.version).value.versionString == s.versionString
            && (IsDraft(s) ==> FindByUuidAndVersion(store, c.uuid, c.version) == Some(s))
  {
    var k :| 0 <= k < |store| && store[k] == s;
    if IsDraft(s) {
      OnlyDraft(store, nextId, s.uuid);
    }
  }

  /** Two different stored records have different ids. */
  lemma DifferentRecordsDifferentIds(store: seq<MetadataSchema>, nextId: nat, x: MetadataSchema, y: MetadataSchema)
    requires ValidStore(store, nextId) && x in store && y in store && x != y
    ensures x.id != y.id
  {
    var i :| 0 <= i < |store| && store[i] == x;
    var j :| 0 <= j < |store| && store[j] == y;
    if i < j {
      assert store[i].id != store[j].id;
    } else {
      assert store[j].id != store[i].id;
    }
  }

  /** On a valid table the draft found for a uuid is its only record without a version string. */
  lemma OnlyDraft(store: seq<MetadataSchema>, nextId: nat, uuid: string)
    requires ValidStore(store, nextId) && FindByUuidAndVersion(store, uuid, None).Some?
    ensures forall k :: 0 <= k < |store| && store[k].uuid == uuid && store[k].versionString.None? ==>
              store[k] == FindByUuidAndVersion(store, uuid, None).value
  {
    var d := FindByUuidAndVersion(store, uuid, None).value;
    var j :| 0 <= j < |store| && store[j] == d;
    forall k | 0 <= k < |store| && store[k].uuid == uuid && store[k].versionString.None? ensures store[k] == d {
      if k < j {
        assert IsDraft(store[k]) && IsDraft(store[j]);
      } else if j < k {
        assert IsDraft(store[j]) && IsDraft(store[k]);
      }
    }
  }

  /** Appending a record under the next id keeps the table valid, unless it adds a second draft. */
  lemma SaveNewKeepsValid(store: seq<MetadataSchema>, nextId: nat, s: MetadataSchema)
    requires ValidStore(store, nextId)
    requires s.id.None? && (s.versionString.None? <==> s.version.None?)
    requires IsDraft(s) ==> forall x :: x in store && IsDraft(x) ==> x.uuid != s.uuid
    ensures ValidStore(SaveInto(store, nextId, s).0, SaveInto(store, nextId, s).1)
  {
    var r := SaveInto(store, nextId, s).0;
    assert r == store + [s.(id := Some(nextId))];
    forall i, j | 0 <= i < j < |r| && IsDraft(r[i]) && IsDraft(r[j]) ensures r[i].uuid != r[j].uuid {
      if j == |store| {
        assert r[i] in store;
      }
    }
  }

  /**
   * Replacing a stored record by one with the same id keeps the table valid, unless it adds a
   * second draft.
   */
  lemma SaveReplacingKeepsValid(store: seq<MetadataSchema>, nextId: nat, i: nat, s: MetadataSchema)
    requires ValidStore(store, nextId) && i < |store| && s.id == store[i].id
    requires s.versionString.None? <==> s.version.None?
    requires IsDraft(s) ==> forall j :: 0 <= j < |store| && j != i && IsDraft(store[j]) ==> store[j].uuid != s.uuid
    ensures SaveInto(store, nextId, s).0 == store[i := s] && SaveInto(store, nextId, s).1 == nextId
    ensures ValidStore(store[i := s], nextId)
  {
    IndexOfStoredId(store, nextId, i);
  }

  /** A record with a new id, and no second draft for its uuid, can be appended to a valid table. */
  lemma AppendKeepsValid(store: seq<MetadataSchema>, nextId: nat, s: MetadataSchema)
    requires ValidStore(store, nextId)
    requires s.id.Some? && s.id.value < nextId && (s.versionString.None? <==> s.version.None?)
    requires forall k :: 0 <= k < |store| ==> store[k].id != s.id && (IsDraft(store[k]) && IsDraft(s) ==> store[k].uuid != s.uuid)
    ensures ValidStore(store + [s], nextId)
  {
    var r := store + [s];
    assert forall k :: 0 <= k < |store| ==> r[k] == store[k];
  }

  /** Deleting a record keeps the table valid. */
  lemma {:induction false} RemoveKeepsValid(store: seq<MetadataSchema>, nextId: nat, id: Option<nat>)
    requires ValidStore(store, nextId)
    ensures ValidStore(RemoveById(store, id), nextId)
  {
    if store != [] {
      var init := store[..|store| - 1];
      var last := store[|store| - 1];
      assert store == init + [last];
      assert ValidStore(init, nextId);
      RemoveKeepsValid(init, nextId, id);
      var r := RemoveById(init, id);
      if last.id != id {
        forall k | 0 <= k < |r| ensures r[k].id != last.id && (IsDraft(r[k]) && IsDraft(last) ==> r[k].uuid != last.uuid) {
          assert r[k] in init;
          var j :| 0 <= j < |init| && init[j] == r[k];
          assert store[j] == r[k];
        }
        AppendKeepsValid(r, nextId, last);
        assert RemoveById(store, id) == r + [last];
      } else {
        assert RemoveById(store, id) == r;
      }
    }
  }

  /**
   * Saving a record in place of the uuid's draft, under the draft's id, replaces exactly that
   * draft, keeps the table valid, and leaves the uuid with a draft exactly when the record is one.
   */
  lemma ReplaceDraft(store: seq<MetadataSchema>, nextId: nat, uuid: string, i: nat, s: MetadataSchema)
    requires ValidStore(store, nextId) && i < |store| && FindByUuidAndVersion(store, uuid, None) == Some(store[i])
    requires s.id == store[i].id && s.uuid == uuid && (s.versionString.None? <==> s.version.None?)
    ensures SaveInto(store, nextId, s) == (store[i := s], nextId)
    ensures ValidStore(store[i := s], nextId)
    ensures forall k :: 0 <= k < |store| ==> store[i := s][k] == if store[k].id == s.id then s else store[k]
    ensures FindByUuidAndVersion(store[i := s], uuid, None).Some? <==> s.versionString.None?
  {
    OnlyDraft(store, nextId, uuid);
    SaveReplacingKeepsValid(store, nextId, i, s);
    var r := store[i := s];
    forall k | 0 <= k < |r| && k != i ensures !(r[k].uuid == uuid && r[k].versionString.None?) {
      assert store[k] != store[i] by {
        if k < i { assert store[k].id != store[i].id; } else { assert store[i].id != store[k].id; }
      }
    }
    if s.versionString.None? {
      assert r[i] in r;
    }
  }

  /** Saving a record under the id of the uuid's draft replaces that draft and nothing else. */
  lemma SaveOverDraftEffect(store: seq<MetadataSchema>, nextId: nat, uuid: string, s: MetadataSchema)
    requires ValidStore(store, nextId) && FindByUuidAndVersion(store, uuid, None).Some?
    requires s.id == FindByUuidAndVersion(store, uuid, None).value.id && s.uuid == uuid
    requires s.versionString.None? <==> s.version.None?
    ensures var (r, n) := SaveInto(store, nextId, s);
            && n == nextId && ValidStore(r, nextId) && |r| == |store|
            && (forall k :: 0 <= k < |r| ==> r[k] == if store[k].id == s.id then s else store[k])
            && (FindByUuidAndVersion(r, uuid, None).Some? <==> s.versionString.None?)
  {
    var draft := FindByUuidAndVersion(store, uuid, None).value;
    var i :| 0 <= i < |store| && store[i] == draft;
    ReplaceDraft(store, nextId, uuid, i, s);
  }

  /**
   * Removing the uuid's draft by its id keeps the table valid, leaves the uuid with no draft,
   * and keeps every other record, in order.
   */
  lemma DeleteDraftEffect(store: seq<MetadataSchema>, nextId: nat, uuid: string)
    requires ValidStore(store, nextId) && FindByUuidAndVersion(store, uuid, None).Some?
    ensures var r := RemoveById(store, FindByUuidAndVersion(store, uuid, None).value.id);
            && ValidStore(r, nextId)
            && FindByUuidAndVersion(r, uuid, None).None?
            && (forall s :: s in r <==> s in store && !(s.uuid == uuid && s.versionString.None?))
            && Sequences.IsSubsequence(r, store)
  {
    var d := FindByUuidAndVersion(store, uuid, None).value;
    RemoveKeepsValid(store, nextId, d.id);
    OnlyDraft(store, nextId, uuid);
    forall s | s in store ensures s.id == d.id <==> s == d {
      if s != d {
        DifferentRecordsDifferentIds(store, nextId, s, d);
      }
    }
    forall s | s in store ensures s == d <==> s.uuid == uuid && s.versionString.None? {
      var k :| 0 <= k < |store| && store[k] == s;
    }
  }

  // ---------------------------------------------------------------------------------------
  // The service

  /** The service over the table of stored schemas. */
  class MetadataSchemaService {
    var schemas: seq<MetadataSchema>
    var nextId: nat

    predicate Valid()
      reads this
    {
      ValidStore(schemas, nextId)
    }

    constructor()
      ensures Valid() && schemas == []
    {
      schemas := [];
      nextId := 0;
    }

    /** metadataSchemaRepository.save. */
    method Save(schema: MetadataSchema)
      modifies this
      ensures (schemas, nextId) == SaveInto(old(schemas), old(nextId), schema)
    {
      schemas, nextId := SaveInto(schemas, nextId, schema).0, SaveInto(schemas, nextId, schema).1;
    }

    /** metadataSchemaRepository.save of a record that takes the place of the uuid's draft. */
    method SaveOverDraft(uuid: string, s: MetadataSchema)
      requires Valid() && FindByUuidAndVersion(schemas, uuid, None).Some?
      requires s.id == FindByUuidAndVersion(schemas, uuid, None).value.id && s.uuid == uuid
      requires s.versionString.None? <==> s.version.None?
      modifies this
      ensures Valid() && nextId == old(nextId) && |schemas| == |old(schemas)|
      ensures forall k :: 0 <= k < |schemas| ==> schemas[k] == if old(schemas)[k].id == s.id then s else old(schemas)[k]
      ensures FindByUuidAndVersion(schemas, uuid, None).Some? <==> s.versionString.None?
    {
      SaveOverDraftEffect(schemas, nextId, uuid, s);
      Save(s);
    }

    /**
     * createDraft: saves a new draft under the given (fresh) uuid and returns its detail view;
     * a missing parent or child schema throws before anything is saved.
     */
    method CreateDraft(dto: MetadataSchemaChangeDTO, newUuid: string) returns (r: Result<MetadataSchemaDetailDTO, ServiceError>)
      requires Valid()
      requires forall s :: s in schemas ==> s.uuid != newUuid
      modifies this
      ensures Valid()
      ensures match CreatedDraft(old(schemas), dto, newUuid)
              case Failure(e) => r == Failure(e) && schemas == old(schemas) && nextId == old(nextId)
              case Success(draft) =>
                && r == Success(ToDetailDTO(draft))
                && schemas == old(schemas) + [draft.(id := Some(old(nextId)))]
                && nextId == old(nextId) + 1
    {
      match CreatedDraft(schemas, dto, newUuid)
      case Failure(e) =>
        r := Failure(e);
      case Success(draft) =>
        SaveNewKeepsValid(schemas, nextId, draft);
        Save(draft);
        r := Success(ToDetailDTO(draft));
    }

    /**
     * Saves an updated or published draft over the stored draft; a result without a record
     * leaves the table as it is and is reported as it came.
     */
    method SaveResult(uuid: string, result: Result<Option<MetadataSchema>, ServiceError>)
      returns (r: Result<Option<MetadataSchemaDetailDTO>, ServiceError>)
      requires Valid()
      requires result.Success? && result.value.Some? ==>
                 && FindByUuidAndVersion(schemas, uuid, None).Some?
                 && result.value.value.id == FindByUuidAndVersion(schemas, uuid, None).value.id
                 && result.value.value.uuid == uuid
                 && (result.value.value.versionString.None? <==> result.value.value.version.None?)
      modifies this
      ensures Valid() && nextId == old(nextId)
      ensures if result.Success? && result.value.Some? then
                var s := result.value.value;
                && r == Success(Some(ToDetailDTO(s)))
                && |schemas| == |old(schemas)|
                && (forall k :: 0 <= k < |schemas| ==>
                      schemas[k] == if old(schemas)[k].id == s.id then s else old(schemas)[k])
                && (FindByUuidAndVersion(schemas, uuid, None).Some? <==> s.versionString.None?)
              else
                && r == (if result.Success? then Success(None) else Failure(result.error))
                && schemas == old(schemas)
    {
      if result.Success? && result.value.Some? {
        SaveOverDraft(uuid, result.value.value);
        r := Success(Some(ToDetailDTO(result.value.value)));
      } else {
        r := if result.Success? then Success(None) else Failure(result.error);
      }
    }

    /**
     * updateDraft: replaces the uuid's draft by one with the client's content and, as its
     * previous version, the most recent record of the uuid, the draft itself included; nothing
     * changes when the uuid has no draft, when the comparator meets the draft's missing version,
     * or when a referenced schema is missing.
     */
    method UpdateDraft(uuid: string, dto: MetadataSchemaChangeDTO) returns (r: Result<Option<MetadataSchemaDetailDTO>, ServiceError>)
      requires Valid()
      modifies this
      ensures Valid() && nextId == old(nextId)
      ensures var result := UpdatedDraftAsWritten(old(schemas), uuid, dto);
              if result.Success? && result.value.Some? then
                var updated := result.value.value;
                && r == Success(Some(ToDetailDTO(updated)))
                && |schemas| == |old(schemas)|
                && (forall k :: 0 <= k < |schemas| ==>
                      schemas[k] == if old(schemas)[k].id == updated.id then updated else old(schemas)[k])
                && FindByUuidAndVersion(schemas, uuid, None).Some?
              else
                && r == (if result.Success? then Success(None) else Failure(result.error))
                && schemas == old(schemas)
    {
      var result := UpdatedDraftAsWritten(schemas, uuid, dto);
      r := SaveResult(uuid, result);
    }

    /**
     * updateDraft with the corrected rule: the previous version is the most recent published
     * record of the uuid, so the update never compares the draft and never links it to itself.
     */
    method UpdateDraftCorrected(uuid: string, dto: MetadataSchemaChangeDTO) returns (r: Result<Option<MetadataSchemaDetailDTO>, ServiceError>)
      requires Valid()
      modifies this
      ensures Valid() && nextId == old(nextId)
      ensures var result := UpdatedDraft(old(schemas), uuid, dto);
              if result.Success? && result.value.Some? then
                var updated := result.value.value;
                && r == Success(Some(ToDetailDTO(updated)))
                && |schemas| == |old(schemas)|
                && (forall k :: 0 <= k < |schemas| ==>
                      schemas[k] == if old(schemas)[k].id == updated.id then updated else old(schemas)[k])
                && FindByUuidAndVersion(schemas, uuid, None).Some?
              else
                && r == (if result.Success? then Success(None) else Failure(result.error))
                && schemas == old(schemas)
    {
      var result := UpdatedDraft(schemas, uuid, dto);
      r := SaveResult(uuid, result);
    }

    /**
     * publishDraft: replaces the uuid's draft by the published record, so the uuid is left with
     * no draft; nothing changes when there is no draft or the version string does not parse.
     */
    method PublishDraft(uuid: string, dto: MetadataSchemaPublishDTO) returns (r: Result<Option<MetadataSchemaDetailDTO>, ServiceError>)
      requires Valid()
      modifies this
      ensures Valid() && nextId == old(nextId)
      ensures var result := PublishedDraft(old(schemas), uuid, dto);
              if result.Success? && result.value.Some? then
                var published := result.value.value;
                && r == Success(Some(ToDetailDTO(published)))
                && |schemas| == |old(schemas)|
                && (forall k :: 0 <= k < |schemas| ==>
                      schemas[k] == if old(schemas)[k].id == published.id then published else old(schemas)[k])
                && FindByUuidAndVersion(schemas, uuid, None).None?
              else
                && r == (if result.Success? then Success(None) else Failure(result.error))
                && schemas == old(schemas)
    {
      var result := PublishedDraft(schemas, uuid, dto);
      r := SaveResult(uuid, result);
    }

    /**
     * deleteDraft: removes the uuid's draft and says whether there was one; every other record
     * stays, in order.
     */
    method DeleteDraft(uuid: string) returns (deleted: bool)
      requires Valid()
      modifies this
      ensures Valid() && nextId == old(nextId)
      ensures deleted <==> FindByUuidAndVersion(old(schemas), uuid, None).Some?
      ensures FindByUuidAndVersion(schemas, uuid, None).None?
      ensures forall s :: s in schemas <==> s in old(schemas) && !(s.uuid == uuid && s.versionString.None?)
      ensures Sequences.IsSubsequence(schemas, old(schemas))
    {
      var found := FindByUuidAndVersion(schemas, uuid, None);
      if found.Some? {
        DeleteDraftEffect(schemas, nextId, uuid);
        schemas := RemoveById(schemas, found.value.id);
        deleted := true;
      } else {
        deleted := false;
        Sequences.SubsequenceReflexive(schemas);
      }
    }
  }
}
