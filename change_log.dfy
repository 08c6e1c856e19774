/**
 * Staged permission changes and what committing them does to the store.
 * `Step` is one iteration of `apply`'s loop and `ApplyLog` the whole loop,
 * folded over the log in staging order.
 */
module ChangeLog {
  import opened Wrappers
  import opened UniqueSeq
  import opened Store

  datatype ChangeType = Allow | Deny

  /** The argument of `allow` / `deny`: `{resourceType, resourceId, permissions}`. */
  datatype Grant = Grant(resourceType: string, resourceId: string, permissions: seq<Permission>)

  /** A staged change: the grant's fields tagged with `changeType`. */
  datatype Change = Change(
    changeType: ChangeType,
    resourceType: string,
    resourceId: string,
    permissions: seq<Permission>)

  /** `Object.assign({changeType}, p)`. */
  function Tag(changeType: ChangeType, p: Grant): Change {
    Change(changeType, p.resourceType, p.resourceId, p.permissions)
  }

  /** The record a change of user `userId` is meant for. */
  function ChangeKey(userId: string, ch: Change): Key {
    Key(userId, ch.resourceType, ch.resourceId)
  }

  /**
   * Committing one change: a deny does nothing; an allow merges its list into
   * the first record for its triple, or creates a record when there is none.
   */
  function Step(rs: seq<Record>, userId: string, ch: Change): seq<Record> {
    if ch.changeType == Deny then rs
    else
      match FindOne(rs, ChangeKey(userId, ch))
      case Some(j) => rs[j := rs[j].(permissions := Union(rs[j].permissions, ch.permissions))]
      case None => rs + [Record(userId, ch.resourceType, ch.resourceId, ch.permissions)]
  }

  /** Committing a whole log, one change at a time, in staging order. */
  function ApplyLog(rs: seq<Record>, userId: string, log: seq<Change>): seq<Record> {
    if log == [] then rs
    else Step(ApplyLog(rs, userId, log[..|log| - 1]), userId, log[|log| - 1])
  }

  /** The allow entries of a log, in order. */
  function Allows(log: seq<Change>): (r: seq<Change>)
    ensures forall ch :: ch in r <==> ch in log && ch.changeType == Allow
  {
    if log == [] then []
    else
      var init, last := log[..|log| - 1], log[|log| - 1];
      assert log == init + [last];
      if last.changeType == Allow then Allows(init) + [last] else Allows(init)
  }

  /** The keys of the records the allow entries of a log are meant for. */
  function AllowKeys(userId: string, log: seq<Change>): set<Key> {
    if log == [] then {}
    else
      var last := log[|log| - 1];
      AllowKeys(userId, log[..|log| - 1]) + (if last.changeType == Allow then {ChangeKey(userId, last)} else {})
  }

  /** At most one record per (userId, resourceType, resourceId). */
  ghost predicate UniqueKeys(rs: seq<Record>) {
    forall i, j :: 0 <= i < j < |rs| ==> KeyOf(rs[i]) != KeyOf(rs[j])
  }

  /**
   * `after` grew from `before` touching only records whose key is in `touched`:
   * every old record keeps its position and key, a record whose key was not
   * touched is unchanged, and every new record has a touched key.
   */
  ghost predicate Extends(before: seq<Record>, after: seq<Record>, touched: set<Key>) {
    && |before| <= |after|
    && (forall j :: 0 <= j < |before| ==> KeyOf(after[j]) == KeyOf(before[j]))
    && (forall j :: 0 <= j < |before| && KeyOf(before[j]) !in touched ==> after[j] == before[j])
    && (forall j :: |before| <= j < |after| ==> KeyOf(after[j]) in touched)
  }

  /**
   * The first record for a triple has a duplicate-free list that already holds
   * every permission of `perms`.
   */
  ghost predicate Covers(rs: seq<Record>, k: Key, perms: seq<Permission>) {
    match FindOne(rs, k)
    case None => false
    case Some(j) => NoDups(rs[j].permissions) && forall x :: x in perms ==> x in rs[j].permissions
  }

  // ---------------------------------------------------------------------------
  // One change
  // ---------------------------------------------------------------------------

  /** A deny entry leaves the store as it was. */
  lemma StepDenyIsNoOp(rs: seq<Record>, userId: string, ch: Change)
    requires ch.changeType == Deny
    ensures Step(rs, userId, ch) == rs
  {
  }

  /**
   * An allow for a triple that has a record rewrites that record only: its new
   * list is duplicate-free, holds exactly the old and the staged permissions,
   * and is the old list (when that had no duplicates) followed by the staged
   * permissions it lacked. Every other record stays as it was.
   */
  lemma StepMergesExisting(rs: seq<Record>, userId: string, ch: Change, j: nat)
    requires ch.changeType == Allow
    requires j < |rs| && KeyOf(rs[j]) == ChangeKey(userId, ch)
    requires forall i :: 0 <= i < j ==> KeyOf(rs[i]) != ChangeKey(userId, ch)
    ensures var out := Step(rs, userId, ch);
      && |out| == |rs|
      && (forall i :: 0 <= i < |rs| && i != j ==> out[i] == rs[i])
      && KeyOf(out[j]) == KeyOf(rs[j])
      && NoDups(out[j].permissions)
      && (forall x :: x in out[j].permissions <==> x in rs[j].permissions || x in ch.permissions)
      && (NoDups(rs[j].permissions) ==>
            out[j].permissions == rs[j].permissions + Dedup(Without(ch.permissions, rs[j].permissions)))
  {
    assert FindOne(rs, ChangeKey(userId, ch)) == Some(j);
    if NoDups(rs[j].permissions) {
      UnionKeepsExisting(rs[j].permissions, ch.permissions);
    }
  }

  /**
   * An allow for a triple that has no record appends exactly one record for
   * that triple, holding the staged list as given.
   */
  lemma StepCreatesMissing(rs: seq<Record>, userId: string, ch: Change)
    requires ch.changeType == Allow
    requires forall i :: 0 <= i < |rs| ==> KeyOf(rs[i]) != ChangeKey(userId, ch)
    ensures Step(rs, userId, ch) == rs + [Record(userId, ch.resourceType, ch.resourceId, ch.permissions)]
  {
  }

  /** One change touches at most the record for its own triple. */
  lemma StepExtends(rs: seq<Record>, userId: string, ch: Change)
    ensures Extends(rs, Step(rs, userId, ch),
                    if ch.changeType == Allow then {ChangeKey(userId, ch)} else {})
  {
  }

  /** One change never makes two records share a triple. */
  lemma StepKeepsUniqueKeys(rs: seq<Record>, userId: string, ch: Change)
    requires UniqueKeys(rs)
    ensures UniqueKeys(Step(rs, userId, ch))
  {
    if ch.changeType == Allow && FindOne(rs, ChangeKey(userId, ch)).None? {
      var out := Step(rs, userId, ch);
      assert out == rs + [Record(userId, ch.resourceType, ch.resourceId, ch.permissions)];
      assert forall i :: 0 <= i < |rs| ==> out[i] == rs[i];
    }
  }

  /** A cover, once there, survives any further change. */
  lemma StepKeepsCover(rs: seq<Record>, userId: string, ch: Change, k: Key, perms: seq<Permission>)
    requires Covers(rs, k, perms)
    ensures Covers(Step(rs, userId, ch), k, perms)
  {
    var out := Step(rs, userId, ch);
    StepExtends(rs, userId, ch);
    FindOneSameKeys(rs, out, k);
  }

  /** An allow with a duplicate-free list leaves its triple covering that list. */
  lemma StepEstablishesCover(rs: seq<Record>, userId: string, ch: Change)
    requires ch.changeType == Allow && NoDups(ch.permissions)
    ensures Covers(Step(rs, userId, ch), ChangeKey(userId, ch), ch.permissions)
  {
    var k := ChangeKey(userId, ch);
    var out := Step(rs, userId, ch);
    StepExtends(rs, userId, ch);
    match FindOne(rs, k)
    case Some(j) =>
      FindOneSameKeys(rs, out, k);
    case None =>
      assert KeyOf(out[|rs|]) == k;
      assert FindOne(out, k) == Some(|rs|);
  }

  /** A change whose triple already covers its list changes nothing. */
  lemma StepCoveredIsNoOp(rs: seq<Record>, userId: string, ch: Change)
    requires ch.changeType == Allow ==> Covers(rs, ChangeKey(userId, ch), ch.permissions)
    ensures Step(rs, userId, ch) == rs
  {
    if ch.changeType == Allow {
      var j := FindOne(rs, ChangeKey(userId, ch)).value;
      UnionAbsorbs(rs[j].permissions, ch.permissions);
      assert rs[j := rs[j]] == rs;
    }
  }

  // ---------------------------------------------------------------------------
  // A whole log
  // ---------------------------------------------------------------------------

  /**
   * Committing `l1 + l2` is committing `l1` and then `l2` on the result: a
   * later change sees the store as the earlier ones left it.
   */
  lemma {:induction false} ApplyLogAppend(rs: seq<Record>, userId: string, l1: seq<Change>, l2: seq<Change>)
    ensures ApplyLog(rs, userId, l1 + l2) == ApplyLog(ApplyLog(rs, userId, l1), userId, l2)
  {
    if l2 == [] {
      assert l1 + l2 == l1;
    } else {
      var init := l2[..|l2| - 1];
      assert (l1 + l2)[..|l1 + l2| - 1] == l1 + init;
      assert (l1 + l2)[|l1 + l2| - 1] == l2[|l2| - 1];
      ApplyLogAppend(rs, userId, l1, init);
    }
  }

  /** Deny entries have no effect: committing a log is committing its allows alone. */
  lemma {:induction false} ApplyLogIgnoresDeny(rs: seq<Record>, userId: string, log: seq<Change>)
    ensures ApplyLog(rs, userId, log) == ApplyLog(rs, userId, Allows(log))
  {
    if log != [] {
      var init, last := log[..|log| - 1], log[|log| - 1];
      assert log == init + [last];
      ApplyLogIgnoresDeny(rs, userId, init);
      if last.changeType == Allow {
        var a := Allows(init) + [last];
        assert a[..|a| - 1] == Allows(init);
      }
    }
  }

  /**
   * Committing a log changes only the records its allows are meant for, and
   * every record it adds is for one of those triples.
   */
  lemma {:induction false} ApplyLogExtends(rs: seq<Record>, userId: string, log: seq<Change>)
    ensures Extends(rs, ApplyLog(rs, userId, log), AllowKeys(userId, log))
  {
    if log != [] {
      var init, last := log[..|log| - 1], log[|log| - 1];
      ApplyLogExtends(rs, userId, init);
      StepExtends(ApplyLog(rs, userId, init), userId, last);
    }
  }

  /**
   * A store written only by `apply` holds at most one record per triple:
   * committing a log keeps the triples unique.
   */
  lemma {:induction false} ApplyLogKeepsUniqueKeys(rs: seq<Record>, userId: string, log: seq<Change>)
    requires UniqueKeys(rs)
    ensures UniqueKeys(ApplyLog(rs, userId, log))
  {
    if log != [] {
      ApplyLogKeepsUniqueKeys(rs, userId, log[..|log| - 1]);
      StepKeepsUniqueKeys(ApplyLog(rs, userId, log[..|log| - 1]), userId, log[|log| - 1]);
    }
  }

  /**
   * After committing a log, every allow in it with a duplicate-free list is
   * covered, whatever the other allows' lists hold.
   */
  lemma {:induction false} ApplyLogCoversAllows(rs: seq<Record>, userId: string, log: seq<Change>)
    ensures forall ch :: ch in log && ch.changeType == Allow && NoDups(ch.permissions) ==>
              Covers(ApplyLog(rs, userId, log), ChangeKey(userId, ch), ch.permissions)
  {
    if log != [] {
      var init, last := log[..|log| - 1], log[|log| - 1];
      assert log == init + [last];
      ApplyLogCoversAllows(rs, userId, init);
      var mid := ApplyLog(rs, userId, init);
      forall ch | ch in log && ch.changeType == Allow && NoDups(ch.permissions)
        ensures Covers(Step(mid, userId, last), ChangeKey(userId, ch), ch.permissions)
      {
        if ch == last {
          StepEstablishesCover(mid, userId, last);
        } else {
          assert ch in init;
          StepKeepsCover(mid, userId, last, ChangeKey(userId, ch), ch.permissions);
        }
      }
    }
  }

  /** A log whose every allow is covered already changes nothing. */
  lemma {:induction false} ApplyLogCoveredIsNoOp(rs: seq<Record>, userId: string, log: seq<Change>)
    requires forall ch :: ch in log && ch.changeType == Allow ==> Covers(rs, ChangeKey(userId, ch), ch.permissions)
    ensures ApplyLog(rs, userId, log) == rs
  {
    if log != [] {
      var init, last := log[..|log| - 1], log[|log| - 1];
      assert log == init + [last];
      ApplyLogCoveredIsNoOp(rs, userId, init);
      StepCoveredIsNoOp(rs, userId, last);
    }
  }

  /**
   * Committing the same log a second time leaves the store as the first
   * commit left it, provided every staged allow list is duplicate-free.
   */
  lemma ApplyLogTwiceIsOnce(rs: seq<Record>, userId: string, log: seq<Change>)
    requires forall ch :: ch in log && ch.changeType == Allow ==> NoDups(ch.permissions)
    ensures ApplyLog(ApplyLog(rs, userId, log), userId, log) == ApplyLog(rs, userId, log)
  {
    ApplyLogCoversAllows(rs, userId, log);
    ApplyLogCoveredIsNoOp(ApplyLog(rs, userId, log), userId, log);
  }

  /**
   * Retrying the whole log after a commit that stopped part-way (after its
   * first `k` changes) leaves the store as one uninterrupted commit would,
   * provided every staged allow list is duplicate-free.
   */
  lemma ApplyLogRetryAfterFailure(rs: seq<Record>, userId: string, log: seq<Change>, k: nat)
    requires k <= |log|
    requires forall ch :: ch in log && ch.changeType == Allow ==> NoDups(ch.permissions)
    ensures ApplyLog(ApplyLog(rs, userId, log[..k]), userId, log) == ApplyLog(rs, userId, log)
  {
    var done, rest := log[..k], log[k..];
    assert log == done + rest;
    var partial := ApplyLog(rs, userId, done);
    var full := ApplyLog(rs, userId, log);
    ApplyLogAppend(partial, userId, done, rest);
    ApplyLogAppend(rs, userId, done, rest);
    // Replaying `done` on top of `partial` changes nothing.
    assert ApplyLog(partial, userId, done) == partial by {
      ApplyLogCoversAllows(rs, userId, done);
      ApplyLogCoveredIsNoOp(partial, userId, done);
    }
  }

  /** An allow on a triple that has a record leaves that record covering its list, duplicates or not. */
  lemma StepMergeCovers(rs: seq<Record>, userId: string, ch: Change)
    requires ch.changeType == Allow && FindOne(rs, ChangeKey(userId, ch)).Some?
    ensures Covers(Step(rs, userId, ch), ChangeKey(userId, ch), ch.permissions)
  {
    StepExtends(rs, userId, ch);
    FindOneSameKeys(rs, Step(rs, userId, ch), ChangeKey(userId, ch));
  }

  /** A triple that has a record keeps one through any commit. */
  lemma ApplyLogKeepsRecord(rs: seq<Record>, userId: string, log: seq<Change>, k: Key)
    requires FindOne(rs, k).Some?
    ensures FindOne(ApplyLog(rs, userId, log), k).Some?
  {
    ApplyLogExtends(rs, userId, log);
    FindOneSameKeys(rs, ApplyLog(rs, userId, log), k);
  }

  /** After a commit, the triple of every allow in the log has a record. */
  lemma {:induction false} ApplyLogCreatesRecords(rs: seq<Record>, userId: string, log: seq<Change>)
    ensures forall ch :: ch in log && ch.changeType == Allow ==>
              FindOne(ApplyLog(rs, userId, log), ChangeKey(userId, ch)).Some?
  {
    if log != [] {
      var init, last := log[..|log| - 1], log[|log| - 1];
      assert log == init + [last];
      ApplyLogCreatesRecords(rs, userId, init);
      var mid := ApplyLog(rs, userId, init);
      forall ch | ch in log && ch.changeType == Allow
        ensures FindOne(Step(mid, userId, last), ChangeKey(userId, ch)).Some?
      {
        if ch == last {
          StepLeavesRecord(mid, userId, last);
        } else {
          assert ch in init;
          ApplyLogKeepsRecord(mid, userId, [last], ChangeKey(userId, ch));
          assert [last][..0] == [];
        }
      }
    }
  }

  /** After one allow, its triple has a record. */
  lemma StepLeavesRecord(rs: seq<Record>, userId: string, ch: Change)
    requires ch.changeType == Allow
    ensures FindOne(Step(rs, userId, ch), ChangeKey(userId, ch)).Some?
  {
    var out := Step(rs, userId, ch);
    StepExtends(rs, userId, ch);
    if FindOne(rs, ChangeKey(userId, ch)).Some? {
      FindOneSameKeys(rs, out, ChangeKey(userId, ch));
    } else {
      assert KeyOf(out[|rs|]) == ChangeKey(userId, ch);
    }
  }

  /**
   * Committing a log on a store where every allow's triple already has a
   * record leaves every allow covered, duplicate-free lists or not.
   */
  lemma {:induction false} ApplyLogOnRecordsCovers(rs: seq<Record>, userId: string, log: seq<Change>)
    requires forall ch :: ch in log && ch.changeType == Allow ==> FindOne(rs, ChangeKey(userId, ch)).Some?
    ensures forall ch :: ch in log && ch.changeType == Allow ==>
              Covers(ApplyLog(rs, userId, log), ChangeKey(userId, ch), ch.permissions)
  {
    if log != [] {
      var init, last := log[..|log| - 1], log[|log| - 1];
      assert log == init + [last];
      ApplyLogOnRecordsCovers(rs, userId, init);
      var mid := ApplyLog(rs, userId, init);
      forall ch | ch in log && ch.changeType == Allow
        ensures Covers(Step(mid, userId, last), ChangeKey(userId, ch), ch.permissions)
      {
        if ch == last {
          ApplyLogKeepsRecord(rs, userId, init, ChangeKey(userId, last));
          StepMergeCovers(mid, userId, last);
        } else {
          assert ch in init;
          StepKeepsCover(mid, userId, last, ChangeKey(userId, ch), ch.permissions);
        }
      }
    }
  }

  /**
   * After a second commit of the same log, the record for every allow's
   * triple is duplicate-free and holds that allow's permissions, even when a
   * staged list had duplicates: the second run's merge removes them.
   */
  lemma SecondRunDedups(rs: seq<Record>, userId: string, log: seq<Change>)
    ensures forall ch :: ch in log && ch.changeType == Allow ==>
              Covers(ApplyLog(ApplyLog(rs, userId, log), userId, log), ChangeKey(userId, ch), ch.permissions)
  {
    ApplyLogCreatesRecords(rs, userId, log);
    ApplyLogOnRecordsCovers(ApplyLog(rs, userId, log), userId, log);
  }

  /**
   * An instance of `SecondRunDedups` where the second commit changes the
   * store: a record created from a list with a repeated permission keeps the
   * repetition, and the second commit's merge removes it.
   */
  lemma ReapplyDedupsCreatedList(userId: string, resourceType: string, resourceId: string, p: Permission)
    ensures var log := [Change(Allow, resourceType, resourceId, [p, p])];
      && ApplyLog([], userId, log) == [Record(userId, resourceType, resourceId, [p, p])]
      && ApplyLog(ApplyLog([], userId, log), userId, log) == [Record(userId, resourceType, resourceId, [p])]
  {
    var log := [Change(Allow, resourceType, resourceId, [p, p])];
    assert log[..0] == [];
    var once := [Record(userId, resourceType, resourceId, [p, p])];
    assert ApplyLog([], userId, log) == once;
    assert FindOne(once, Key(userId, resourceType, resourceId)) == Some(0);
    assert Union([p, p], [p, p]) == [p] by {
      DedupAppend([p, p], [p, p]);
      WithoutCovered([p, p], [p, p]);
      DedupOfNoDups([p]);
      DedupSnoc([p], p);
      assert [p] + [p] == [p, p];
    }
  }

  /**
   * Two allows for the same new triple leave one record for it, whose list is
   * duplicate-free and holds exactly the permissions of both, whatever their
   * overlap; the records before it are untouched.
   */
  lemma AllowThenAllowUnions(rs: seq<Record>, userId: string, resourceType: string, resourceId: string,
                             p1: seq<Permission>, p2: seq<Permission>)
    requires forall i :: 0 <= i < |rs| ==> KeyOf(rs[i]) != Key(userId, resourceType, resourceId)
    ensures var out := ApplyLog(rs, userId, [Change(Allow, resourceType, resourceId, p1),
                                             Change(Allow, resourceType, resourceId, p2)]);
      && |out| == |rs| + 1
      && out[..|rs|] == rs
      && KeyOf(out[|rs|]) == Key(userId, resourceType, resourceId)
      && NoDups(out[|rs|].permissions)
      && (forall x :: x in out[|rs|].permissions <==> x in p1 || x in p2)
  {
    var c1, c2 := Change(Allow, resourceType, resourceId, p1), Change(Allow, resourceType, resourceId, p2);
    var log := [c1, c2];
    assert log[..1] == [c1];
    assert [c1][..0] == [];
    var mid := rs + [Record(userId, resourceType, resourceId, p1)];
    assert ApplyLog(rs, userId, [c1]) == mid;
    assert KeyOf(mid[|rs|]) == Key(userId, resourceType, resourceId);
    assert FindOne(mid, Key(userId, resourceType, resourceId)) == Some(|rs|);
  }
}
