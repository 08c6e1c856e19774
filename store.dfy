/**
 * The permission record collection (`authz_user_permissions`) as an abstract
 * in-memory store: an ordered sequence of records, with the four operations the
 * resolver uses: `find`, `findOne`, `save` and `create`.
 */
module Store {
  import opened Wrappers
  import opened UniqueSeq

  /** One stored permission record: a user's permissions on one resource. */
  datatype Record = Record(
    userId: string,
    resourceType: string,
    resourceId: string,
    permissions: seq<Permission>)

  /** The triple that identifies the record a change is meant for. */
  datatype Key = Key(userId: string, resourceType: string, resourceId: string)

  function KeyOf(r: Record): Key {
    Key(r.userId, r.resourceType, r.resourceId)
  }

  /**
   * A query document for `find`: `userId` always, `resourceType` and
   * `resourceId` only when present.
   */
  datatype Selector = Selector(userId: string, resourceType: Option<string>, resourceId: Option<string>)

  /** A record matches a query document when it agrees with every field the document holds. */
  predicate Matches(r: Record, sel: Selector) {
    && r.userId == sel.userId
    && (sel.resourceType.Some? ==> r.resourceType == sel.resourceType.value)
    && (sel.resourceId.Some? ==> r.resourceId == sel.resourceId.value)
  }

  /** `find(selector)`: the matching records, in collection order. */
  function Find(rs: seq<Record>, sel: Selector): (r: seq<Record>)
    ensures forall x :: x in r <==> x in rs && Matches(x, sel)
    ensures |r| <= |rs|
  {
    if rs == [] then []
    else (if Matches(rs[0], sel) then [rs[0]] else []) + Find(rs[1..], sel)
  }

  /**
   * `findOne({userId, resourceType, resourceId})`: the position of the first
   * record with key `k`, or None when there is none.
   */
  function FindOne(rs: seq<Record>, k: Key): (r: Option<nat>)
    ensures r.Some? ==> r.value < |rs| && KeyOf(rs[r.value]) == k
    ensures r.Some? ==> forall j :: 0 <= j < r.value ==> KeyOf(rs[j]) != k
    ensures r.None? <==> forall j :: 0 <= j < |rs| ==> KeyOf(rs[j]) != k
  {
    if rs == [] then None
    else if KeyOf(rs[0]) == k then Some(0)
    else
      match FindOne(rs[1..], k)
      case Some(j) => Some(j + 1)
      case None => None
  }

  /** `findOne` gives the same answer on a store that keeps the keys of a store where it found one. */
  lemma FindOneSameKeys(a: seq<Record>, b: seq<Record>, k: Key)
    requires |a| <= |b|
    requires forall j :: 0 <= j < |a| ==> KeyOf(b[j]) == KeyOf(a[j])
    requires FindOne(a, k).Some?
    ensures FindOne(b, k) == FindOne(a, k)
  {
    var i := FindOne(a, k).value;
    assert KeyOf(b[i]) == k;
  }

  /** The collection itself: the only state shared between resolvers. */
  class PermissionStore {
    var records: seq<Record>

    constructor (records: seq<Record>)
      ensures this.records == records
    {
      this.records := records;
    }

    /** `existing.permissions = permissions; existing.save()` on the record at position `i`. */
    method Save(i: nat, permissions: seq<Permission>)
      requires i < |records|
      modifies this
      ensures records == old(records)[i := old(records)[i].(permissions := permissions)]
    {
      records := records[i := records[i].(permissions := permissions)];
    }

    /** `create(record)`: a new record after all existing ones. */
    method Create(r: Record)
      modifies this
      ensures records == old(records) + [r]
    {
      records := records + [r];
    }
  }
}
