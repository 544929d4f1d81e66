/**
 * The backup service of src/services/backupService.ts: a backup file
 * captures the raw settings, presets and journal strings of the browser's
 * local storage, and restoring one validates it before writing any of them
 * back. JSON parsing and serialisation are abstract: the restore receives
 * the parsed file, or `None` when the text did not parse.
 */
module Backup {
  import opened Common

  const BackupVersion: int := 1
  const AppName: string := "R-Calculator"

  /**
   * The local-storage keys of settings, presets and journal. Their values
   * live in a constants file that is not part of this model.
   */
  datatype StorageKeys = StorageKeys(settings: string, presets: string, journal: string)

  predicate DistinctKeys(keys: StorageKeys)
  {
    keys.settings != keys.presets && keys.settings != keys.journal && keys.presets != keys.journal
  }

  /** The data payload; `None` is a `null` or absent string. */
  datatype BackupData = BackupData(settings: Option<string>, presets: Option<string>, journal: Option<string>)

  /** A parsed backup file; `None` is an absent version or absent data. */
  datatype BackupFile = BackupFile(backupVersion: Option<int>, timestamp: string, appName: string, data: Option<BackupData>)

  /** What the user is told. */
  datatype RestoreMessage = NotInBrowser | WrongApplication | UnsupportedVersion | MissingData | InvalidFile | RestoreSuccessful

  datatype RestoreResult = RestoreResult(success: bool, message: RestoreMessage)

  /** JavaScript truthiness of an optional string: present and non-empty. */
  predicate Truthy(s: Option<string>)
  {
    s.Some? && s.value != ""
  }

  /** `getItem`: the stored string, or `null`. */
  function GetItem(items: map<string, string>, key: string): (v: Option<string>)
    ensures v.Some? <==> key in items
    ensures v.Some? ==> v.value == items[key]
  {
    if key in items then Some(items[key]) else None
  }

  /**
   * The validation that precedes every write: the verdict for a file, or
   * `None` when the file is acceptable. The checks come in the source's
   * order: environment, parse, application name, version, data.
   */
  function Rejection(inBrowser: bool, parsed: Option<BackupFile>): (m: Option<RestoreMessage>)
    ensures m != Some(RestoreSuccessful)
    ensures m.None? <==>
      && inBrowser && parsed.Some? && parsed.value.appName == AppName
      && parsed.value.backupVersion.Some? && parsed.value.backupVersion.value != 0
      && parsed.value.backupVersion.value <= BackupVersion
      && parsed.value.data.Some?
  {
    if !inBrowser then Some(NotInBrowser)
    else if parsed.None? then Some(InvalidFile)
    else
      var b := parsed.value;
      if b.appName != AppName then Some(WrongApplication)
      else if b.backupVersion.None? || b.backupVersion.value == 0 || b.backupVersion.value > BackupVersion then Some(UnsupportedVersion)
      else if b.data.None? then Some(MissingData)
      else None
  }

  /** One `setItem` guarded by the value's truthiness. */
  function SetIfTruthy(items: map<string, string>, key: string, v: Option<string>): map<string, string>
  {
    if Truthy(v) then items[key := v.value] else items
  }

  /** The storage after the three guarded writes, in the source's order. */
  function Restored(items: map<string, string>, d: BackupData, keys: StorageKeys): map<string, string>
  {
    SetIfTruthy(SetIfTruthy(SetIfTruthy(items, keys.settings, d.settings), keys.presets, d.presets), keys.journal, d.journal)
  }

  /** The value a backup carries for each of the three keys. */
  function Carried(d: BackupData, keys: StorageKeys, key: string): Option<string>
    requires key == keys.settings || key == keys.presets || key == keys.journal
  {
    if key == keys.settings then d.settings else if key == keys.presets then d.presets else d.journal
  }

  /**
   * Restoring writes each of the three keys exactly when the backup holds a
   * non-empty string for it, and touches no other key.
   */
  lemma RestoredKeys(items: map<string, string>, d: BackupData, keys: StorageKeys)
    requires DistinctKeys(keys)
    ensures var r := Restored(items, d, keys);
      && (forall k :: k != keys.settings && k != keys.presets && k != keys.journal ==>
            (k in r <==> k in items) && (k in items ==> r[k] == items[k]))
      && (forall k :: k == keys.settings || k == keys.presets || k == keys.journal ==>
            if Truthy(Carried(d, keys, k)) then k in r && r[k] == Carried(d, keys, k).value
            else (k in r <==> k in items) && (k in items ==> r[k] == items[k]))
  {
  }

  /**
   * The storage after the guarded writes when `setItem` throws for the
   * keys in `failing` (storage full or blocked): the writes run in the
   * source's order and stop at the first one that throws, whose key keeps
   * its old value; `failed` tells that one threw.
   */
  datatype Writes = Writes(items: map<string, string>, failed: bool)

  /** One guarded `setItem`, skipped once a write has thrown. */
  function TryWrite(w: Writes, key: string, v: Option<string>, failing: set<string>): Writes
  {
    if w.failed || !Truthy(v) then w
    else if key in failing then w.(failed := true)
    else Writes(w.items[key := v.value], false)
  }

  /** The three guarded writes of a restore, in the source's order. */
  function RestoreWrites(items: map<string, string>, d: BackupData, keys: StorageKeys, failing: set<string>): Writes
  {
    TryWrite(TryWrite(TryWrite(Writes(items, false), keys.settings, d.settings, failing), keys.presets, d.presets, failing), keys.journal, d.journal, failing)
  }

  /**
   * A write throws exactly when a key the backup carries a non-empty
   * string for is failing; without one the writes are `Restored`. Either
   * way no key outside the three is touched, and a failing key keeps its
   * value: what was written before the throw stays written.
   */
  lemma RestoreWritesStop(items: map<string, string>, d: BackupData, keys: StorageKeys, failing: set<string>)
    requires DistinctKeys(keys)
    ensures var w := RestoreWrites(items, d, keys, failing);
      && (w.failed <==> (Truthy(d.settings) && keys.settings in failing)
                        || (Truthy(d.presets) && keys.presets in failing)
                        || (Truthy(d.journal) && keys.journal in failing))
      && (!w.failed ==> w.items == Restored(items, d, keys))
      && (forall k :: k != keys.settings && k != keys.presets && k != keys.journal ==>
            (k in w.items <==> k in items) && (k in items ==> w.items[k] == items[k]))
      && (forall k :: k in failing ==> (k in w.items <==> k in items) && (k in items ==> w.items[k] == items[k]))
  {
  }

  /** The browser's local storage for this origin. */
  class LocalStorage {
    var items: map<string, string>

    constructor (items: map<string, string>)
      ensures this.items == items
    {
      this.items := items;
    }

    /**
     * `createBackup`'s record: version 1, this application's name, the
     * given time stamp, and the raw strings under the three keys. Outside a
     * browser nothing is produced. The download is not modelled.
     */
    method CreateBackup(keys: StorageKeys, timestamp: string, inBrowser: bool) returns (file: Option<BackupFile>)
      ensures file.Some? <==> inBrowser
      ensures file.Some? ==> file.value == Snapshot(items, keys, timestamp)
    {
      if !inBrowser {
        return None;
      }
      var data := BackupData(GetItem(items, keys.settings), GetItem(items, keys.presets), GetItem(items, keys.journal));
      file := Some(BackupFile(Some(BackupVersion), timestamp, AppName, Some(data)));
    }

    /**
     * `restoreFromBackup`: a rejected file leaves the storage as it was; an
     * accepted one has its non-empty strings written and succeeds, unless
     * a `setItem` throws (for the keys in `failing`), which is reported as
     * an invalid file with the earlier writes kept.
     */
    method RestoreFromBackup(parsed: Option<BackupFile>, keys: StorageKeys, inBrowser: bool, failing: set<string>) returns (r: RestoreResult)
      modifies this
      ensures Rejection(inBrowser, parsed).Some? ==>
        !r.success && r.message == Rejection(inBrowser, parsed).value && items == old(items)
      ensures Rejection(inBrowser, parsed).None? ==>
        var w := RestoreWrites(old(items), parsed.value.data.value, keys, failing);
        && items == w.items
        && r.success == !w.failed
        && r.message == (if w.failed then InvalidFile else RestoreSuccessful)
    {
      if !inBrowser {
        return RestoreResult(false, NotInBrowser);
      }
      if parsed.None? {
        return RestoreResult(false, InvalidFile);
      }
      var backup := parsed.value;
      if backup.appName != AppName {
        return RestoreResult(false, WrongApplication);
      }
      if backup.backupVersion.None? || backup.backupVersion.value == 0 || backup.backupVersion.value > BackupVersion {
        return RestoreResult(false, UnsupportedVersion);
      }
      if backup.data.None? {
        return RestoreResult(false, MissingData);
      }
      var d := backup.data.value;
      if Truthy(d.settings) {
        if keys.settings in failing {
          return RestoreResult(false, InvalidFile);
        }
        items := items[keys.settings := d.settings.value];
      }
      if Truthy(d.presets) {
        if keys.presets in failing {
          return RestoreResult(false, InvalidFile);
        }
        items := items[keys.presets := d.presets.value];
      }
      if Truthy(d.journal) {
        if keys.journal in failing {
          return RestoreResult(false, InvalidFile);
        }
        items := items[keys.journal := d.journal.value];
      }
      r := RestoreResult(true, RestoreSuccessful);
    }
  }

  /** The record `createBackup` builds from a storage. */
  function Snapshot(items: map<string, string>, keys: StorageKeys, timestamp: string): BackupFile
  {
    BackupFile(Some(BackupVersion), timestamp, AppName,
      Some(BackupData(GetItem(items, keys.settings), GetItem(items, keys.presets), GetItem(items, keys.journal))))
  }

  /**
   * A backup taken from one storage passes validation, and restoring it
   * into any storage sets each captured non-empty key back to its captured
   * value, leaving the other keys as they were in the target.
   */
  lemma {:induction false} SnapshotRestores(source: map<string, string>, target: map<string, string>, keys: StorageKeys, timestamp: string)
    requires DistinctKeys(keys)
    ensures Rejection(true, Some(Snapshot(source, keys, timestamp))).None?
    ensures var r := Restored(target, Snapshot(source, keys, timestamp).data.value, keys);
      && (forall k :: (k == keys.settings || k == keys.presets || k == keys.journal) && k in source && source[k] != "" ==>
            k in r && r[k] == source[k])
      && (forall k :: k != keys.settings && k != keys.presets && k != keys.journal ==>
            (k in r <==> k in target) && (k in target ==> r[k] == target[k]))
  {
    var d := Snapshot(source, keys, timestamp).data.value;
    RestoredKeys(target, d, keys);
    forall k | (k == keys.settings || k == keys.presets || k == keys.journal) && k in source && source[k] != ""
      ensures Truthy(Carried(d, keys, k)) && Carried(d, keys, k).value == source[k]
    {
    }
  }

  /** Restoring a storage's own backup into it changes nothing. */
  lemma {:induction false} RestoreOwnSnapshot(items: map<string, string>, keys: StorageKeys, timestamp: string)
    requires DistinctKeys(keys)
    ensures Restored(items, Snapshot(items, keys, timestamp).data.value, keys) == items
  {
    var r := Restored(items, Snapshot(items, keys, timestamp).data.value, keys);
    SnapshotRestores(items, items, keys, timestamp);
    assert r.Keys == items.Keys;
  }
}
