/**
 * The user permission resolver (`UserPermissionMongoose` over its abstract
 * base): it stages changes in `changes`, answers queries from the store and
 * commits the staged log into the store.
 */
module Resolver {
  import opened Wrappers
  import opened UniqueSeq
  import opened Store
  import opened ChangeLog

  /** The error a store call raises. */
  datatype StoreError = StoreUnavailable

  /** JavaScript truthiness of an optional string: present and not empty. */
  predicate Truthy(s: Option<string>) {
    s.Some? && s.value != ""
  }

  /**
   * The query document of `getPermissions`: it always constrains `userId`, and
   * `resourceType` / `resourceId` only when they are truthy; a record matches
   * it exactly when it satisfies every one of those constraints.
   */
  function SelectorFor(userId: string, resourceType: Option<string>, resourceId: Option<string>): (sel: Selector)
    ensures forall r :: Matches(r, sel) <==>
      && r.userId == userId
      && (Truthy(resourceType) ==> r.resourceType == resourceType.value)
      && (Truthy(resourceId) ==> r.resourceId == resourceId.value)
  {
    Selector(userId,
             if Truthy(resourceType) then resourceType else None,
             if Truthy(resourceId) then resourceId else None)
  }

  /**
   * The index of the change whose store call fails during `apply`, if that
   * change is an allow (a deny makes no store call, so a fault there is never hit).
   */
  predicate FailsAt(changes: seq<Change>, failAt: Option<nat>) {
    failAt.Some? && failAt.value < |changes| && changes[failAt.value].changeType == Allow
  }

  /** How many changes `apply` commits before it stops. */
  function Committed(changes: seq<Change>, failAt: Option<nat>): (n: nat)
    ensures n <= |changes|
  {
    if FailsAt(changes, failAt) then failAt.value else |changes|
  }

  class UserPermission {
    const userId: string
    const store: PermissionStore
    var changes: seq<Change>

    /** A resolver for `userId` with an empty change log. */
    constructor (userId: string, store: PermissionStore)
      ensures this.userId == userId && this.store == store
      ensures changes == []
    {
      this.userId := userId;
      this.store := store;
      changes := [];
    }

    /** Stages an allow at the end of the log and returns the resolver for chaining. */
    method Allow(p: Grant) returns (self: UserPermission)
      modifies this
      ensures changes == old(changes) + [Tag(ChangeType.Allow, p)]
      ensures self == this
    {
      changes := changes + [Tag(ChangeType.Allow, p)];
      self := this;
    }

    /** Stages a deny at the end of the log and returns the resolver for chaining. */
    method Deny(p: Grant) returns (self: UserPermission)
      modifies this
      ensures changes == old(changes) + [Tag(ChangeType.Deny, p)]
      ensures self == this
    {
      changes := changes + [Tag(ChangeType.Deny, p)];
      self := this;
    }

    /**
     * The user's records, narrowed by whichever of `resourceType` and
     * `resourceId` are truthy; `readFails` stands for the store's `find`
     * throwing, which yields the empty list instead of an error.
     */
    method GetPermissions(resourceType: Option<string>, resourceId: Option<string>, readFails: bool)
      returns (perms: seq<Record>)
      ensures readFails ==> perms == []
      ensures !readFails ==> forall r :: r in perms <==>
        && r in store.records
        && r.userId == userId
        && (Truthy(resourceType) ==> r.resourceType == resourceType.value)
        && (Truthy(resourceId) ==> r.resourceId == resourceId.value)
    {
      var selector := SelectorFor(userId, resourceType, resourceId);
      if readFails {
        perms := [];
      } else {
        perms := Find(store.records, selector);
      }
    }

    /**
     * Commits the log in staging order. `failAt` names the change whose store
     * call throws, if any: the changes before it stay committed, the error is
     * returned and the rest of the log is not processed. The log is not cleared.
     */
    method Apply(failAt: Option<nat>) returns (outcome: Outcome<StoreError>)
      modifies store
      ensures outcome == if FailsAt(changes, failAt) then Fail(StoreUnavailable) else Pass
      ensures store.records == ApplyLog(old(store.records), userId, changes[..Committed(changes, failAt)])
    {
      var i := 0;
      while i < |changes|
        invariant i <= |changes|
        invariant store.records == ApplyLog(old(store.records), userId, changes[..i])
        invariant failAt.Some? && failAt.value < i ==> changes[failAt.value].changeType == ChangeType.Deny
      {
        var ch := changes[i];
        assert changes[..i + 1][..i] == changes[..i];
        if ch.changeType == ChangeType.Allow {
          if failAt == Some(i) {
            return Fail(StoreUnavailable);
          }
          var existing := FindOne(store.records, ChangeKey(userId, ch));
          match existing
          case Some(j) =>
            store.Save(j, Union(store.records[j].permissions, ch.permissions));
          case None =>
            store.Create(Record(userId, ch.resourceType, ch.resourceId, ch.permissions));
        }
        i := i + 1;
      }
      assert changes[..i] == changes;
      return Pass;
    }
  }
}
