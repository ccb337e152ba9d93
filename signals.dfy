/**
 * The change audit of inventaris/signals.py: the field-level diff an asset
 * save produces, who it is attributed to, and the entry (if any) that is
 * appended to the audit log. The log itself, and the pre-image read before
 * the write, belong to the store (inventory.dfy).
 */
module Signals {
  import opened Models

  /** The tracked columns read from the stored row before a save (signals.py:31-35). */
  datatype Snapshot = Snapshot(status: AssetStatus, condition: Condition, location: nat)

  function SnapshotOf(a: Asset): Snapshot {
    Snapshot(a.status, a.condition, a.location)
  }

  datatype AuditField = StatusKey | ConditionKey | LocationKey | ResponsibleKey

  datatype AuditValue =
    | StatusValue(status: AssetStatus)
    | ConditionValue(condition: Condition)
    | LocationValue(location: nat)
    | UserIds(ids: set<nat>)

  /** One `{"before": ..., "after": ...}` pair. */
  datatype Change = Change(before: AuditValue, after: AuditValue)

  type Changes = map<AuditField, Change>

  datatype AuditEntry = AuditEntry(entity: string, entityId: nat, action: string, changes: Changes, performedBy: nat)

  /**
   * The diff of `audit_asset` (signals.py:43-59). A field appears exactly when
   * its previous value is set and differs from the new one, with the old and
   * new values. Status and condition are non-empty strings, hence always set;
   * a location id is set when it is nonzero. Without a pre-image nothing
   * appears.
   */
  function AssetChanges(previous: Option<Snapshot>, current: Snapshot): (changes: Changes)
    ensures StatusKey in changes <==> previous.Some? && previous.value.status != current.status
    ensures ConditionKey in changes <==> previous.Some? && previous.value.condition != current.condition
    ensures LocationKey in changes <==>
      previous.Some? && previous.value.location != 0 && previous.value.location != current.location
    ensures ResponsibleKey !in changes
    ensures StatusKey in changes ==>
      changes[StatusKey] == Change(StatusValue(previous.value.status), StatusValue(current.status))
    ensures ConditionKey in changes ==>
      changes[ConditionKey] == Change(ConditionValue(previous.value.condition), ConditionValue(current.condition))
    ensures LocationKey in changes ==>
      changes[LocationKey] == Change(LocationValue(previous.value.location), LocationValue(current.location))
  {
    if previous.None? then map[]
    else
      var p := previous.value;
      (if p.status != current.status
       then map[StatusKey := Change(StatusValue(p.status), StatusValue(current.status))] else map[])
      + (if p.condition != current.condition
         then map[ConditionKey := Change(ConditionValue(p.condition), ConditionValue(current.condition))] else map[])
      + (if p.location != 0 && p.location != current.location
         then map[LocationKey := Change(LocationValue(p.location), LocationValue(current.location))] else map[])
  }

  /**
   * Attribution (signals.py:13-16): the authenticated current user, else the
   * asset's `updated_by`, else its `created_by`; None when nobody resolves.
   */
  function ResolveActor(current: CurrentUser, updatedBy: Option<nat>, createdBy: Option<nat>): (actor: Option<nat>)
    ensures current.Authenticated? ==> actor == Some(current.id)
    ensures !current.Authenticated? && updatedBy.Some? ==> actor == updatedBy
    ensures !current.Authenticated? && updatedBy.None? ==> actor == createdBy
    ensures actor.None? <==> !current.Authenticated? && updatedBy.None? && createdBy.None?
  {
    if current.Authenticated? then Some(current.id)
    else if updatedBy.Some? then updatedBy
    else createdBy
  }

  /**
   * `_log_asset_change` (signals.py:10-23): nothing for an empty diff or
   * when no actor resolves, otherwise one entry for entity "asset", the
   * asset's id and action "update".
   */
  function LogAssetChange(assetId: nat, changes: Changes, actor: Option<nat>): (entries: seq<AuditEntry>)
    ensures |entries| <= 1
    ensures entries != [] <==> changes != map[] && actor.Some?
    ensures entries != [] ==> entries[0] == AuditEntry("asset", assetId, "update", changes, actor.value)
  {
    if changes == map[] || actor.None? then []
    else [AuditEntry("asset", assetId, "update", changes, actor.value)]
  }

  /** The m2m_changed actions Django sends around add, remove and clear. */
  datatype M2MAction = PreAdd | PostAdd | PreRemove | PostRemove | PreClear | PostClear

  predicate IsPreAction(a: M2MAction) {
    a == PreAdd || a == PreRemove || a == PreClear
  }

  /** The diff logged for a responsible-user change: both id lists, even when they are equal (signals.py:74-79). */
  function ResponsibleChanges(before: set<nat>, after: set<nat>): (changes: Changes)
    ensures changes.Keys == {ResponsibleKey}
    ensures changes[ResponsibleKey].before == UserIds(before) && changes[ResponsibleKey].after == UserIds(after)
  {
    map[ResponsibleKey := Change(UserIds(before), UserIds(after))]
  }

  /** A save that changes only the condition yields one entry whose map has only the condition key. */
  lemma ConditionOnlyUpdate(assetId: nat, previous: Snapshot, current: Snapshot, actor: nat)
    requires previous.status == current.status && previous.location == current.location
    requires previous.condition != current.condition
    ensures var entries := LogAssetChange(assetId, AssetChanges(Some(previous), current), Some(actor));
      |entries| == 1 && entries[0].changes.Keys == {ConditionKey}
      && entries[0].changes[ConditionKey] == Change(ConditionValue(previous.condition), ConditionValue(current.condition))
  {
    var changes := AssetChanges(Some(previous), current);
    assert ConditionKey in changes;
    assert changes.Keys == {ConditionKey};
  }

  /** A save that changes no tracked field appends nothing, whoever performs it. */
  lemma UnchangedSaveLogsNothing(assetId: nat, previous: Snapshot, actor: Option<nat>)
    ensures LogAssetChange(assetId, AssetChanges(Some(previous), previous), actor) == []
  {
    assert AssetChanges(Some(previous), previous) == map[];
  }

  /**
   * Why the pre-image must come from the stored row: diffing the instance
   * being saved against itself would never log anything, whatever changed.
   */
  lemma SelfDiffIsEmpty(a: Asset)
    ensures AssetChanges(Some(SnapshotOf(a)), SnapshotOf(a)) == map[]
  {
    assert AssetChanges(Some(SnapshotOf(a)), SnapshotOf(a)).Keys == {};
  }
}
