/**
 * The version history engine of has_paper_trail.rb: the rules that append a
 * version when a record is created, updated or destroyed, the point-in-time
 * lookup `version_at`, and the audit trail built from the stored versions
 * plus the live record.
 *
 * The process-wide switch `PaperTrail.enabled?`, the current actor
 * `PaperTrail.whodunnit` and the clock that stamps `created_at` are passed
 * in as parameters. Snapshots are kept as attribute hashes instead of YAML.
 */
module PaperTrail {
  import opened Wrappers
  import opened Attributes
  import opened DiffEngine

  datatype Event = Create | Update | Destroy

  /**
   * A row of the versions table: the event that produced it, the snapshot of
   * the record's attributes before that event (nil for a create), who did it
   * and when the row was written.
   */
  datatype Version = Version(event: Event, snapshot: Option<Attrs>, whodunnit: Option<string>, createdAt: int)

  /** One entry of `audit_trail`. */
  datatype TrailEntry = TrailEntry(event: Event, changedBy: Option<string>, changedAt: int, changes: seq<Diff>)

  /** A pending change of one attribute, as `changes` reports it: `[old, new]`. */
  datatype Change = Change(oldValue: Value, newValue: Value)

  /** What `version_at` answers: the live record itself, the stored snapshot that `reify` rebuilds, or nil. */
  datatype Lookup = Live | Restored(stored: Option<Attrs>) | NotFound

  /** The primary key attribute, which `clone` drops and `previous_version` puts back. */
  const PrimaryKey: string := "id"

  /** What `audit_trail` ignores when no `:attributes_to_ignore` option is given. */
  const DefaultIgnored: seq<string> := ["updated_at"]

  /** The attributes `audit_trail` ignores: the list given as an option, even an empty one, or else `updated_at`. */
  function IgnoredAttributes(option: Option<seq<string>>): seq<string>
  {
    match option
    case None => DefaultIgnored
    case Some(names) => names
  }

  /** `yaml_to_hash`: a missing snapshot reads as the empty hash. */
  function YamlToHash(yaml: Option<Attrs>): Attrs
  {
    match yaml
    case None => map[]
    case Some(attributes) => attributes
  }

  /** `transform_whodunnit`, a hook for display that is the identity here. */
  function TransformWhodunnit(whodunnit: Option<string>): Option<string>
  {
    whodunnit
  }

  /** Dirty tracking as ActiveRecord keeps it: every changed attribute exists and its new value is the current one. */
  predicate Tracks(attributes: Attrs, changes: map<string, Change>)
  {
    && changes.Keys <= attributes.Keys
    && forall k :: k in changes ==> changes[k].newValue == attributes[k]
  }

  /** The attributes with every changed attribute put back to its old value. */
  function Reverted(attributes: Attrs, changes: map<string, Change>): Attrs
  {
    map k | k in attributes :: if k in changes then changes[k].oldValue else attributes[k]
  }

  /** The attributes with every change applied: what saving the update writes. */
  function Applied(attributes: Attrs, changes: map<string, Change>): Attrs
  {
    map k | k in attributes :: if k in changes then changes[k].newValue else attributes[k]
  }

  /** Applying the pending changes to the reverted snapshot gives back the live attributes. */
  lemma RevertThenApply(attributes: Attrs, changes: map<string, Change>)
    requires Tracks(attributes, changes)
    ensures Applied(Reverted(attributes, changes), changes) == attributes
  {
  }

  /** Reverting changes just applied to a snapshot gives back that snapshot. */
  lemma ApplyThenRevert(previous: Attrs, changes: map<string, Change>)
    requires changes.Keys <= previous.Keys
    requires forall k :: k in changes ==> changes[k].oldValue == previous[k]
    ensures Reverted(Applied(previous, changes), changes) == previous
    ensures Tracks(Applied(previous, changes), changes)
  {
  }

  /** Stored versions in `created_at` order, oldest first. */
  predicate CreatedAscending(vs: seq<Version>)
  {
    forall i, j :: 0 <= i < j < |vs| ==> vs[i].createdAt <= vs[j].createdAt
  }

  /** Versions newest first. */
  predicate CreatedDescending(vs: seq<Version>)
  {
    forall i, j :: 0 <= i < j < |vs| ==> vs[i].createdAt >= vs[j].createdAt
  }

  /** Array#reverse. */
  function Reverse<T>(s: seq<T>): (r: seq<T>)
    ensures |r| == |s|
    ensures forall i :: 0 <= i < |s| ==> r[i] == s[|s| - 1 - i]
  {
    if s == [] then [] else Reverse(s[1..]) + [s[0]]
  }

  /**
   * The versions query of `version_at`: the index of a version with the
   * greatest `created_at` below `timestamp`. The association's own order,
   * `created_at ASC, id ASC`, is appended to the query's, so among rows tying
   * on that `created_at` the earliest inserted one comes first.
   */
  function LatestBefore(vs: seq<Version>, timestamp: int): (j: Option<nat>)
    ensures j.None? <==> forall i :: 0 <= i < |vs| ==> vs[i].createdAt >= timestamp
    ensures j.Some? ==> j.value < |vs| && vs[j.value].createdAt < timestamp
    ensures j.Some? ==> forall i :: 0 <= i < |vs| && vs[i].createdAt < timestamp ==>
      vs[i].createdAt <= vs[j.value].createdAt
    ensures j.Some? ==> forall i :: 0 <= i < j.value && vs[i].createdAt < timestamp ==>
      vs[i].createdAt < vs[j.value].createdAt
  {
    if vs == [] then None
    else
      var last := |vs| - 1;
      var earlier := LatestBefore(vs[..last], timestamp);
      if vs[last].createdAt < timestamp && (earlier.None? || vs[earlier.value].createdAt < vs[last].createdAt)
      then Some(last)
      else earlier
  }

  /**
   * The query `version_at` needs: the index of a version with the least
   * `created_at` above `timestamp`, the earliest inserted among ties (the
   * association order `created_at ASC, id ASC`).
   */
  function FirstAfter(vs: seq<Version>, timestamp: int): (j: Option<nat>)
    ensures j.None? <==> forall i :: 0 <= i < |vs| ==> vs[i].createdAt <= timestamp
    ensures j.Some? ==> j.value < |vs| && vs[j.value].createdAt > timestamp
    ensures j.Some? ==> forall i :: 0 <= i < |vs| && vs[i].createdAt > timestamp ==>
      vs[j.value].createdAt <= vs[i].createdAt
    ensures j.Some? ==> forall i :: 0 <= i < j.value && vs[i].createdAt > timestamp ==>
      vs[j.value].createdAt < vs[i].createdAt
  {
    if vs == [] then None
    else
      var later := FirstAfter(vs[1..], timestamp);
      if vs[0].createdAt > timestamp && (later.None? || vs[0].createdAt <= vs[later.value + 1].createdAt)
      then Some(0)
      else
        match later
        case None => None
        case Some(j) => Some(j + 1)
  }

  /**
   * In versions kept in `created_at` order, version `k` holds the state in
   * force from the previous version's time up to its own: the first version
   * after any `timestamp` in that interval is `k`.
   */
  lemma FirstAfterInForce(vs: seq<Version>, timestamp: int, k: nat)
    requires CreatedAscending(vs)
    requires k < |vs| && timestamp < vs[k].createdAt
    requires k > 0 ==> vs[k - 1].createdAt <= timestamp
    ensures FirstAfter(vs, timestamp) == Some(k)
  {
  }

  /**
   * The boundaries of a not yet saved record as written: rows fetched
   * `created_at desc`, the live boundary appended, and the list reversed.
   * `rows` are the record's versions oldest first.
   */
  function NewRecordBoundariesAsWritten(rows: seq<Version>, current: Version): seq<Version>
  {
    Reverse(Reverse(rows) + [current])
  }

  /** As written, the stored rows follow the live boundary oldest first. */
  lemma NewRecordOrderAsWritten(rows: seq<Version>, current: Version)
    ensures NewRecordBoundariesAsWritten(rows, current) == [current] + rows
  {
  }

  /** Two rows a second apart: as written they come out oldest first, not newest first. */
  lemma NewRecordOrderAsWrittenNotDescending()
    ensures !CreatedDescending(NewRecordBoundariesAsWritten(
      [Version(Create, None, None, 1), Version(Update, Some(map[]), None, 2)],
      Version(Update, Some(map[]), None, 3))[1..])
  {
    var rows := [Version(Create, None, None, 1), Version(Update, Some(map[]), None, 2)];
    var current := Version(Update, Some(map[]), None, 3);
    NewRecordOrderAsWritten(rows, current);
    var tail := NewRecordBoundariesAsWritten(rows, current)[1..];
    assert tail[0].createdAt < tail[1].createdAt;
  }

  /** The boundaries of a not yet saved record with the rows fetched oldest first, as for a saved record. */
  function NewRecordBoundaries(rows: seq<Version>, current: Version): (desc: seq<Version>)
    ensures |desc| == |rows| + 1 && desc[0] == current
    ensures forall i :: 1 <= i <= |rows| ==> desc[i] == rows[|rows| - i]
    ensures CreatedAscending(rows) ==> CreatedDescending(desc[1..])
  {
    Reverse(rows + [current])
  }

  /**
   * `entry` is what `audit_trail` reports for the step from the boundary
   * `earlier` to the boundary `later`: the earlier boundary's event, actor
   * and time, and the differences between the two snapshots with the
   * ignored attributes dropped from both.
   */
  predicate Describes(entry: TrailEntry, earlier: Version, later: Version, ignored: seq<string>)
  {
    && entry.event == earlier.event
    && entry.changedBy == earlier.whodunnit
    && entry.changedAt == earlier.createdAt
    && entry.changes == Differences(Reject(YamlToHash(earlier.snapshot), ignored),
                                    Reject(YamlToHash(later.snapshot), ignored))
  }

  /** No entry of a trail built from `boundaries` reports an ignored attribute. */
  lemma TrailOmitsIgnored(trail: seq<TrailEntry>, boundaries: seq<Version>, ignored: seq<string>)
    requires |trail| < |boundaries|
    requires forall i :: 0 <= i < |trail| ==> Describes(trail[i], boundaries[i + 1], boundaries[i], ignored)
    ensures forall i, k :: 0 <= i < |trail| && k in ignored ==> k !in Names(trail[i].changes)
  {
    forall i, k | 0 <= i < |trail| && k in ignored
      ensures k !in Names(trail[i].changes)
    {
      IgnoredNeverReported(YamlToHash(boundaries[i + 1].snapshot), YamlToHash(boundaries[i].snapshot), ignored, k);
    }
  }

  /** Entries built from adjacent boundaries, restated in terms of the stored versions the boundaries come from. */
  lemma TrailFollowsStored(trail: seq<TrailEntry>, boundaries: seq<Version>, stored: seq<Version>,
                           current: Version, ignored: seq<string>)
    requires |boundaries| == |stored| + 1 && |trail| == |stored|
    requires boundaries[0] == current
    requires forall i :: 1 <= i <= |stored| ==> boundaries[i] == stored[|stored| - i]
    requires forall i :: 0 <= i < |trail| ==> Describes(trail[i], boundaries[i + 1], boundaries[i], ignored)
    ensures forall i :: 0 <= i < |trail| ==>
      Describes(trail[i], stored[|stored| - 1 - i], if i == 0 then current else stored[|stored| - i], ignored)
  {
    forall i | 0 <= i < |trail|
      ensures Describes(trail[i], stored[|stored| - 1 - i], if i == 0 then current else stored[|stored| - i], ignored)
    {
      assert boundaries[i + 1] == stored[|stored| - 1 - i];
    }
  }

  /** The per-class switch `paper_trail_active` of a model class that has a paper trail. */
  class Model {
    var paperTrailActive: bool

    /** `has_paper_trail` turns the switch on. */
    constructor ()
      ensures paperTrailActive
    {
      paperTrailActive := true;
    }

    method PaperTrailOff()
      modifies this
      ensures !paperTrailActive
    {
      paperTrailActive := false;
    }

    method PaperTrailOn()
      modifies this
      ensures paperTrailActive
    {
      paperTrailActive := true;
    }
  }

  /** A record of a model class with a paper trail, and its `versions` association. */
  class Record {
    const model: Model
    /** Not `new_record?`. */
    var persisted: bool
    var attributes: Attrs
    /** `changes`: attribute name to `[old, new]` for every attribute changed since the last save. */
    var changes: map<string, Change>
    var updatedAt: int
    /** The loaded `versions` association, in the order it was loaded and appended to. */
    var versions: seq<Version>

    ghost predicate Valid()
      reads this
    {
      PrimaryKey in attributes && Tracks(attributes, changes)
    }

    constructor (model: Model, persisted: bool, attributes: Attrs, changes: map<string, Change>,
                 updatedAt: int, versions: seq<Version>)
      requires PrimaryKey in attributes && Tracks(attributes, changes)
      ensures Valid()
      ensures this.model == model && this.persisted == persisted && this.attributes == attributes
      ensures this.changes == changes && this.updatedAt == updatedAt && this.versions == versions
    {
      this.model := model;
      this.persisted := persisted;
      this.attributes := attributes;
      this.changes := changes;
      this.updatedAt := updatedAt;
      this.versions := versions;
    }

    /** `after_create`: a create version, with no snapshot, when both switches are on. */
    method RecordCreate(enabled: bool, whodunnit: Option<string>, now: int)
      modifies this`versions
      ensures versions == if model.paperTrailActive && enabled
        then old(versions) + [Version(Create, None, whodunnit, now)]
        else old(versions)
    {
      if model.paperTrailActive && enabled {
        versions := versions + [Version(Create, None, whodunnit, now)];
      }
    }

    /** `before_update`: an update version holding the pre-update attributes, when something changed and both switches are on. */
    method RecordUpdate(enabled: bool, whodunnit: Option<string>, now: int)
      requires Valid()
      modifies this`versions
      ensures Valid()
      ensures versions == if changes != map[] && model.paperTrailActive && enabled
        then old(versions) + [Version(Update, Some(Reverted(attributes, changes)), whodunnit, now)]
        else old(versions)
    {
      if changes != map[] && model.paperTrailActive && enabled {
        var previous := PreviousVersion();
        versions := versions + [Version(Update, Some(previous), whodunnit, now)];
      }
    }

    /** `after_destroy`: a destroy version holding the last attributes, when both switches are on. */
    method RecordDestroy(enabled: bool, whodunnit: Option<string>, now: int)
      requires Valid()
      modifies this`versions
      ensures Valid()
      ensures versions == if model.paperTrailActive && enabled
        then old(versions) + [Version(Destroy, Some(Reverted(attributes, changes)), whodunnit, now)]
        else old(versions)
    {
      if model.paperTrailActive && enabled {
        var previous := PreviousVersion();
        versions := versions + [Version(Destroy, Some(previous), whodunnit, now)];
      }
    }

    /**
     * `previous_version`: a clone (which drops the primary key), the primary
     * key put back, then every changed attribute set to its old value.
     */
    method PreviousVersion() returns (previous: Attrs)
      requires Valid()
      ensures previous.Keys == attributes.Keys
      ensures forall k :: k in changes ==> previous[k] == changes[k].oldValue
      ensures forall k :: k in attributes && k !in changes ==> previous[k] == attributes[k]
      ensures previous == Reverted(attributes, changes)
    {
      previous := map k | k in attributes && k != PrimaryKey :: attributes[k];
      previous := previous[PrimaryKey := attributes[PrimaryKey]];
      var pending := changes.Keys;
      while pending != {}
        invariant pending <= changes.Keys
        invariant previous.Keys == attributes.Keys
        invariant forall k :: k in previous ==>
          previous[k] == if k in changes && k !in pending then changes[k].oldValue else attributes[k]
        decreases pending
      {
        var k :| k in pending;
        previous := previous[k := changes[k].oldValue];
        pending := pending - {k};
      }
    }

    /**
     * `version_at`: the live record when it was last updated before
     * `timestamp`; otherwise the snapshot of the version with the greatest
     * `created_at` below `timestamp`, or nil when there is none.
     */
    function VersionAt(timestamp: int): (r: Lookup)
      reads this
      ensures updatedAt < timestamp ==> r == Live
      ensures updatedAt >= timestamp ==>
        (r == NotFound <==> forall i :: 0 <= i < |versions| ==> versions[i].createdAt >= timestamp)
      ensures updatedAt >= timestamp ==> r != Live
      ensures r.Restored? ==> exists j :: (
        && 0 <= j < |versions| && versions[j].createdAt < timestamp
        && r.stored == versions[j].snapshot
        && forall i :: 0 <= i < |versions| && versions[i].createdAt < timestamp ==>
             versions[i].createdAt <= versions[j].createdAt)
    {
      if updatedAt < timestamp then Live
      else
        match LatestBefore(versions, timestamp)
        case None => NotFound
        case Some(j) => Restored(versions[j].snapshot)
    }

    /** The stored versions the trail walks: the association, or for a not yet saved record the rows fetched by type and id. */
    function StoredVersions(rows: seq<Version>): seq<Version>
      reads this
    {
      if persisted then versions else rows
    }

    /**
     * `version_at` as its comment promises it: the record as it was at
     * `timestamp`. A version holds the attributes from before its own change,
     * so the state in force at `timestamp` is the snapshot of the first
     * version written after it; with none, the live record was in force.
     */
    function VersionAtCorrected(timestamp: int): (r: Lookup)
      reads this
      ensures updatedAt < timestamp ==> r == Live
      ensures r != NotFound
      ensures updatedAt >= timestamp ==>
        (r == Live <==> forall i :: 0 <= i < |versions| ==> versions[i].createdAt <= timestamp)
    {
      if updatedAt < timestamp then Live
      else
        match FirstAfter(versions, timestamp)
        case None => Live
        case Some(j) => Restored(versions[j].snapshot)
    }

    /** The synthetic newest boundary: the live attributes, as an update stamped `updated_at`. */
    function Current(): Version
      reads this
    {
      Version(Update, Some(attributes), None, updatedAt)
    }

    /**
     * `versions_including_current_in_descending_order`: the stored versions
     * with the live boundary appended, reversed. `rows` are the record's rows
     * oldest first, which a not yet saved record fetches by type and id.
     */
    method VersionsIncludingCurrentInDescendingOrder(rows: seq<Version>) returns (desc: seq<Version>)
      ensures var stored := StoredVersions(rows);
        && |desc| == |stored| + 1
        && desc[0] == Version(Update, Some(attributes), None, updatedAt)
        && (forall i :: 1 <= i <= |stored| ==> desc[i] == stored[|stored| - i])
        && (CreatedAscending(stored) ==> CreatedDescending(desc[1..]))
      ensures !persisted ==> desc == NewRecordBoundaries(rows, Current())
    {
      var v := StoredVersions(rows);
      v := v + [Current()];
      desc := Reverse(v);
    }

    /**
     * `audit_trail`: one entry per adjacent pair of boundaries, newest first,
     * labelled with the earlier boundary's event, actor and time, and listing
     * the differences between the two snapshots once the ignored attributes
     * are dropped from both.
     */
    method AuditTrail(ignoreOption: Option<seq<string>>, rows: seq<Version>) returns (trail: seq<TrailEntry>)
      ensures var stored := StoredVersions(rows);
        && |trail| == |stored|
        && forall i :: 0 <= i < |trail| ==>
             Describes(trail[i], stored[|stored| - 1 - i],
                       if i == 0 then Current() else stored[|stored| - i],
                       IgnoredAttributes(ignoreOption))
      ensures forall i, k :: 0 <= i < |trail| && k in IgnoredAttributes(ignoreOption) ==>
        k !in Names(trail[i].changes)
    {
      var ignored := IgnoredAttributes(ignoreOption);
      var versionsDesc := VersionsIncludingCurrentInDescendingOrder(rows);
      ghost var stored := StoredVersions(rows);
      ghost var n := |stored|;
      trail := [];
      var index := 0;
      while index < |versionsDesc|
        invariant 0 <= index <= n
        invariant |trail| == index
        invariant forall i :: 0 <= i < index ==> Describes(trail[i], versionsDesc[i + 1], versionsDesc[i], ignored)
      {
        var version := versionsDesc[index];
        if index + 1 == |versionsDesc| {
          break;
        }
        var previousVersion := versionsDesc[index + 1];
        var attributesAfter := YamlToHash(version.snapshot);
        var attributesBefore := YamlToHash(previousVersion.snapshot);
        attributesBefore := Reject(attributesBefore, ignored);
        attributesAfter := Reject(attributesAfter, ignored);
        var entry := TrailEntry(previousVersion.event,
                                TransformWhodunnit(previousVersion.whodunnit),
                                previousVersion.createdAt,
                                Differences(attributesBefore, attributesAfter));
        trail := trail + [entry];
        index := index + 1;
      }
      TrailOmitsIgnored(trail, versionsDesc, ignored);
      TrailFollowsStored(trail, versionsDesc, stored, Current(), ignored);
    }
  }

  /** The attributes of the scenario below after its create, first update and second update. */
  const Created: Attrs := map[PrimaryKey := Number(1), "name" := Text("A"), "status" := Text("new")]
  const Active: Attrs := Created["status" := Text("active")]
  const Renamed: Attrs := Active["name" := Text("B")]

  /**
   * On a record whose versions are in `created_at` order, the corrected
   * lookup returns the snapshot in force at `timestamp`: that of the version
   * `k` which ends the interval holding `timestamp`.
   */
  lemma VersionAtCorrectedInForce(r: Record, timestamp: int, k: nat)
    requires CreatedAscending(r.versions) && timestamp <= r.updatedAt
    requires k < |r.versions| && timestamp < r.versions[k].createdAt
    requires k > 0 ==> r.versions[k - 1].createdAt <= timestamp
    ensures r.VersionAtCorrected(timestamp) == Restored(r.versions[k].snapshot)
  {
    FirstAfterInForce(r.versions, timestamp, k);
  }

  /**
   * Created at 10, made active at 20, renamed at 30: as written, `version_at`
   * answers one change behind. At 25 the record was active, yet it returns
   * the snapshot from before that change; at 15 it had its created
   * attributes, yet it returns the create version's nil snapshot.
   */
  lemma VersionAtOneChangeBehind(r: Record)
    requires r.updatedAt == 30
    requires r.versions == [Version(Create, None, None, 10), Version(Update, Some(Created), None, 20),
                            Version(Update, Some(Active), None, 30)]
    ensures r.VersionAt(25) == Restored(Some(Created))
    ensures r.VersionAt(15) == Restored(None)
    ensures r.VersionAtCorrected(25) == Restored(Some(Active))
    ensures r.VersionAtCorrected(15) == Restored(Some(Created))
  {
    var vs := r.versions;
    assert vs[1].createdAt < 25 <= vs[2].createdAt;
    assert vs[0].createdAt < 15 <= vs[1].createdAt;
  }

  /** The three versions the recording rules store for the scenario below, oldest first. */
  function ScenarioVersions(): seq<Version>
  {
    [Version(Create, None, Some("alice"), 1),
     Version(Update, Some(Created), Some("bob"), 2),
     Version(Update, Some(Active), Some("carol"), 3)]
  }

  /**
   * A record created as {name: "A", status: "new"}, updated to status
   * "active", then updated to name "B": the recording rules store a create
   * version and two update versions holding the pre-update attributes.
   */
  method CreateUpdateUpdateRecording()
  {
    var model := new Model();
    var first := new Record(model, true, Created, map[], 1, []);
    first.RecordCreate(true, Some("alice"), 1);
    assert first.versions == ScenarioVersions()[..1];

    var second := new Record(model, true, Active, map["status" := Change(Text("new"), Text("active"))], 2, first.versions);
    second.RecordUpdate(true, Some("bob"), 2);
    assert second.versions == ScenarioVersions()[..2] by {
      assert "status" in second.changes;
      assert Reverted(Active, second.changes) == Created;
    }

    var third := new Record(model, true, Renamed, map["name" := Change(Text("A"), Text("B"))], 3, second.versions);
    third.RecordUpdate(true, Some("carol"), 3);
    assert third.versions == ScenarioVersions() by {
      assert "name" in third.changes;
      assert Reverted(Renamed, third.changes) == Active;
    }
  }

  /** Ignoring nothing keeps the whole hash. */
  lemma RejectNothing(h: Attrs)
    ensures Reject(h, []) == h
  {
  }

  /**
   * The audit trail of that record, with nothing ignored: three entries,
   * newest first, the oldest labelled `create` and listing every attribute
   * of the first snapshot.
   */
  method CreateUpdateUpdateTrail()
  {
    var model := new Model();
    var live := new Record(model, true, Renamed, map[], 3, ScenarioVersions());
    var trail := live.AuditTrail(Some([]), []);
    assert |trail| == 3;
    assert trail[0].event == Update && trail[0].changedBy == Some("carol") && trail[0].changedAt == 3;
    assert trail[1].event == Update && trail[1].changedBy == Some("bob") && trail[1].changedAt == 2;
    assert trail[2].event == Create && trail[2].changedBy == Some("alice") && trail[2].changedAt == 1;
    assert trail[0].changes == Differences(Active, Renamed) by {
      RejectNothing(Active);
      RejectNothing(Renamed);
    }
    assert trail[1].changes == Differences(Created, Active) by {
      RejectNothing(Created);
      RejectNothing(Active);
    }
    assert trail[2].changes == Differences(map[], Created) by {
      RejectNothing(map[]);
      RejectNothing(Created);
    }
    ScenarioChanges();
    assert "name" in Names(trail[0].changes) && "status" !in Names(trail[0].changes);
    assert "status" in Names(trail[1].changes) && "name" !in Names(trail[1].changes);
    assert "name" in Names(trail[2].changes) && "status" in Names(trail[2].changes);
  }

  /** What each step of the scenario changed: the rename, the status change, and everything on create. */
  lemma ScenarioChanges()
    ensures "name" in Names(Differences(Active, Renamed)) && "status" !in Names(Differences(Active, Renamed))
    ensures "status" in Names(Differences(Created, Active)) && "name" !in Names(Differences(Created, Active))
    ensures "name" in Names(Differences(map[], Created)) && "status" in Names(Differences(map[], Created))
  {
    assert Active["status"] == Renamed["status"] && Active["name"] != Renamed["name"];
    assert Created["name"] == Active["name"] && Created["status"] != Active["status"];
    assert "name" in Created && "status" in Created;
  }
}
