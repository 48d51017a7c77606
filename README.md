# paper_trail history engine, modelled in Dafny

This project models the version history engine of the `paper_trail` Rails
plugin, `lib/paper_trail/has_paper_trail.rb`, and proves properties of the model.
It covers:

- the **recording rules**. `record_create`, `record_update` and `record_destroy`
  decide when a row is appended to a record's `versions`. `previous_version`
  builds the pre-change snapshot that an update or destroy stores.
- **`differences`**. It lists the attributes that differ between two attribute
  hashes, sorted by name, each with its before and after value.
- **`version_at`**. It looks up the record as it was at a timestamp. Beside the
  lookup as written, the model has a corrected lookup that returns the state in
  force at the timestamp (see Findings).
- **`audit_trail`** and **`versions_including_current_in_descending_order`**.
  They add a synthetic "current" boundary on top of the versions, reverse the
  list to newest first, and emit one labelled diff per adjacent pair.

Files:

- `wrappers.dfy`: `Option`, standing for Ruby's nil.
- `attributes.dfy`: attribute values and hashes (`map<string, Value>`), the
  character-wise order on attribute names, and `SortedKeys` (`keys.sort`).
- `diff_engine.dfy`: ActiveSupport's `Hash#diff`, `differences`, and the
  `reject!` filter for ignored attributes.
- `has_paper_trail.dfy`: versions, the `Model` class holding the per-class
  switch, and the `Record` class holding a record's attributes, pending
  `changes`, `updated_at` and loaded `versions`. It also holds the recording
  rules, `version_at`, the boundary list and `audit_trail`.

Some inputs are passed as parameters: the process-wide `PaperTrail.enabled?`
switch, the actor `PaperTrail.whodunnit`, and the clock that stamps `created_at`.
Snapshots are stored as attribute hashes. `Version.snapshot` models the
`object` column; `object` is a reserved word in Dafny.

Where the code does something other than its comments and method names suggest, the model follows the code:

- The `create` version is a boundary like any other. A record created, then updated
  twice, has three versions and so three trail entries. The oldest entry is
  labelled `create`. It lists every attribute of the first snapshot as changed
  from nil, because a missing snapshot reads as the empty hash.
  `CreateUpdateUpdateRecording` and `CreateUpdateUpdateTrail` play this history
  through the recording methods. They check the three stored versions and the
  three trail entries, with their labels and changed attributes.
- `differences` is built on ActiveSupport's `Hash#diff`, which is asymmetric. A key
  present only in `after` is always reported, even with the value nil. A key present
  only in `before` is not reported when its value is nil.
- `version_at` can find a `create` version, whose snapshot is nil. The model then
  returns `Restored(None)`, not `NotFound`.

## Model

| member | source | states |
|---|---|---|
| Attributes.SortedKeys | lib/paper_trail/has_paper_trail.rb:125 | `keys.sort` returns every key of the set exactly once, in strictly ascending order. |
| DiffEngine.HashDiffKeys | lib/paper_trail/has_paper_trail.rb:125 | `before.diff(after)` contains a key in both hashes exactly when the two values differ. It always contains a key only in `after`. It contains a key only in `before` exactly when that value is not nil. It never contains a key in neither. |
| DiffEngine.Differences | lib/paper_trail/has_paper_trail.rb:124-129 | The entries are sorted strictly ascending by attribute, with no duplicates. Each entry is `{attribute: k, before: before[k], after: after[k]}`, with nil for a missing key. The reported keys are exactly the keys of `before.diff(after)`, case by case as in HashDiffKeys. |
| DiffEngine.DifferencesOfSame | lib/paper_trail/has_paper_trail.rb:124-128 | `differences(a, a)` is empty for every hash. |
| DiffEngine.IgnoredNeverReported | lib/paper_trail/has_paper_trail.rb:80-82 | Once both hashes are filtered with `reject!`, no ignored attribute is reported. |
| DiffEngine.RejectKeepsOthers | lib/paper_trail/has_paper_trail.rb:80-82 | Filtering does not change whether an attribute that is not ignored is reported. |
| PaperTrail.RevertThenApply | lib/paper_trail/has_paper_trail.rb:104-111 | Re-applying the pending changes to the `previous_version` snapshot gives back the live attributes. |
| PaperTrail.ApplyThenRevert | lib/paper_trail/has_paper_trail.rb:104-111 | Reverting changes just applied to a snapshot gives back that snapshot, and the result tracks those changes. |
| PaperTrail.LatestBefore | lib/paper_trail/has_paper_trail.rb:57-59 | The query finds no version exactly when no version has `created_at < t`. Otherwise it finds a version with `created_at < t` whose `created_at` is the greatest such. Among rows tying on it, it finds the earliest inserted, as the association order `created_at ASC, id ASC` (line 15) puts it first. |
| PaperTrail.FirstAfter | lib/paper_trail/has_paper_trail.rb:52-60 | The corrected query finds no version exactly when every version has `created_at <= t`. Otherwise it finds a version with the least `created_at` above `t`, the earliest inserted among ties. |
| PaperTrail.FirstAfterInForce | lib/paper_trail/has_paper_trail.rb:52-60 | In versions kept in `created_at` order, a timestamp not before version k-1 and before version k finds version k: the version whose snapshot was in force at that time. |
| PaperTrail.NewRecordOrderAsWritten | lib/paper_trail/has_paper_trail.rb:132-140 | As written, a new record's boundary list is the live boundary followed by the stored rows oldest first. |
| PaperTrail.NewRecordOrderAsWrittenNotDescending | lib/paper_trail/has_paper_trail.rb:132-140 | Two rows with `created_at` 1 and 2 come out of the as-written code in ascending order, not newest first. |
| PaperTrail.NewRecordBoundaries | lib/paper_trail/has_paper_trail.rb:131-140 | With the rows fetched oldest first, the list is the live boundary followed by the rows in reverse. It is newest first whenever the rows are in `created_at` order. |
| PaperTrail.TrailOmitsIgnored | lib/paper_trail/has_paper_trail.rb:76-88 | An entry built from two boundaries never reports an ignored attribute. |
| PaperTrail.TrailFollowsStored | lib/paper_trail/has_paper_trail.rb:72-89 | Entry i pairs the stored version n-1-i, as the earlier boundary, with the next newer boundary. The newest entry pairs with the live boundary. |
| PaperTrail.Model.constructor | lib/paper_trail/has_paper_trail.rb:12-13 | `has_paper_trail` turns the per-class switch on. |
| PaperTrail.Model.PaperTrailOff | lib/paper_trail/has_paper_trail.rb:22-24 | `paper_trail_off` clears the per-class switch. |
| PaperTrail.Model.PaperTrailOn | lib/paper_trail/has_paper_trail.rb:26-28 | `paper_trail_on` sets the per-class switch. |
| PaperTrail.Record.RecordCreate | lib/paper_trail/has_paper_trail.rb:33-36 | A `create` version with a nil snapshot, the actor and the time is appended exactly when both switches are on. Otherwise `versions` is unchanged. Nothing else changes. |
| PaperTrail.Record.RecordUpdate | lib/paper_trail/has_paper_trail.rb:38-44 | An `update` version holding the reverted snapshot is appended exactly when there are changes and both switches are on. Otherwise `versions` is unchanged. Nothing else changes, and the record stays valid. |
| PaperTrail.Record.RecordDestroy | lib/paper_trail/has_paper_trail.rb:46-50 | A `destroy` version holding the reverted snapshot is appended exactly when both switches are on. Otherwise `versions` is unchanged. Nothing else changes, and the record stays valid. |
| PaperTrail.Record.PreviousVersion | lib/paper_trail/has_paper_trail.rb:104-111 | The snapshot has the same attribute names as the record. Each changed attribute holds its old value. Every other attribute, the `id` among them, keeps its current value. |
| PaperTrail.Record.VersionAt | lib/paper_trail/has_paper_trail.rb:53-61 | If `updated_at < t`, the result is the live record. Otherwise it is nil exactly when no version has `created_at < t`. Otherwise it is the snapshot of a version with the greatest `created_at` below `t`. |
| PaperTrail.Record.VersionAtCorrected | lib/paper_trail/has_paper_trail.rb:52-60 | If `updated_at < t`, the result is the live record. It is never nil. Otherwise it is the live record exactly when no version was written after `t`. |
| PaperTrail.VersionAtCorrectedInForce | lib/paper_trail/has_paper_trail.rb:52-60 | On a record whose versions are in `created_at` order, the corrected lookup at `t` returns the snapshot of the first version written after `t`, the state in force at `t`. |
| PaperTrail.VersionAtOneChangeBehind | lib/paper_trail/has_paper_trail.rb:52-60 | Take versions at 10 (create), 20 (holding the created attributes) and 30 (holding the active ones). As written, the lookup at 25 returns the created attributes and at 15 the nil create snapshot. The corrected lookup returns the active and the created attributes. |
| PaperTrail.Record.VersionsIncludingCurrentInDescendingOrder | lib/paper_trail/has_paper_trail.rb:131-141 | The list has one more element than the stored versions. Its first element is an `update` boundary holding the live attributes and stamped `updated_at`. It continues with the stored versions in reverse, which is `created_at` descending when they were ascending. |
| PaperTrail.ScenarioChanges | lib/paper_trail/has_paper_trail.rb:124-128 | In the create, update, update scenario, the newest step reports `name` and not `status`. The middle step reports `status` and not `name`. The create step reports both. |
| PaperTrail.Record.AuditTrail | lib/paper_trail/has_paper_trail.rb:65-93 | There is exactly one entry per stored version. Entry i takes its event, actor and time from stored version n-1-i. Its changes are `differences` between that version's snapshot and the next newer boundary's snapshot (the live attributes for entry 0), with nil snapshots read as empty and the ignored attributes dropped from both. With no option, `updated_at` is ignored. No ignored attribute appears in any entry. |

## Left out

- ActiveRecord wiring is not modelled: `has_many :versions`, the `after_create`/`before_update`/`after_destroy` registration, `cattr_accessor` and the inclusion into `ActiveRecord::Base`. These are framework hooks; the host calls the three record methods itself.
- YAML serialization (`to_yaml`, `YAML::load`) is foreign code. Snapshots are stored as attribute hashes, so `object_to_string` followed by `yaml_to_hash` is the identity here.
- `lib/paper_trail.rb` is not part of this model: the global `whodunnit` (a value or a lambda reading `current_user`), the config singleton behind `enabled?`, and the controller filter. Their resolved values are parameters.
- `Version#reify` and `lib/paper_trail/version.rb` are not part of this model. `version_at` returns the stored snapshot that `reify` would rebuild.
- `transform_whodunnit` is the identity. An override in a subclass is not modelled.
- ActiveSupport's `Hash#diff` is not part of this model's source. It is modelled from its definition. It keeps the pairs of the receiver whose value differs from the other hash's value for the key (nil when missing). It adds the pairs of the other hash whose key the receiver lacks.
- Attribute names are compared character by character. Ruby compares the bytes of the strings. The two orders agree for ASCII names.
- The `versions` association is modelled in load-and-append order. The database returns `created_at ASC, id ASC`; the two orders agree when the clock never runs backwards.
- PaperTrail.Record.VersionsIncludingCurrentInDescendingOrder: states newest-first order of the stored part only when the stored versions are in `created_at` order, which the database order guarantees and the model does not track.
- The ordering of the `version_at` query among tied `created_at` values comes from ActiveRecord 2.x appending the association's `created_at ASC, id ASC` after the query's own order. That merge happens inside ActiveRecord, which is not part of this model. The model takes its result: the earliest inserted row among ties.
- `audit_trail` stores the default ignore list into the caller's own options hash when that key is missing. The model takes the option by value and does not model this write to the caller's hash.
- `Array(...)` in `audit_trail` also accepts a single attribute name in place of a list. The model takes a list; a single name is the one-element list.
- `version_at` raises NoMethodError when `updated_at` is nil, as on a record that was never saved. The model's `updated_at` is always an integer, so this error is not modelled.
- The new-record branch passes in the rows its raw `Version.all` query would return, oldest first, instead of running the query. The model uses the corrected order; see Findings.
- Saving a record (writing `changes` into the attributes, bumping `updated_at`) is ActiveRecord's work and is not modelled; `Applied` stands for its effect on attributes.
- Concurrency and persistence errors are not modelled; every operation is sequential and cannot fail.

## Findings

| source | as written | input that shows it | evidently intended | confidence | as-written member | corrected member |
|---|---|---|---|---|---|---|
| lib/paper_trail/has_paper_trail.rb:52-60 | `version_at` takes the latest version written before `t`. Versions hold the attributes from before their own change, so it returns the state before the last change prior to `t`, not the state at `t`. | Versions at 10 (create), 20 (holding the created attributes) and 30 (holding the active ones), with the record updated at 30. At 25 the record was active, yet the lookup returns the created attributes. At 15 it returns the create version's nil snapshot. | The object valid at `t`, as the comment on line 52 says: the snapshot of the first version written after `t`, or the live record when there is none. | medium, not executed | PaperTrail.VersionAtOneChangeBehind | PaperTrail.Record.VersionAtCorrected |
| lib/paper_trail/has_paper_trail.rb:132-140 | For a record that is not yet saved, the rows are fetched `created_at desc`. The live boundary is appended and the list is reversed, so the stored rows come out oldest first after the live boundary. | A new record (for instance a reified one) with rows at `created_at` 1 and 2. The list is [current, row 1, row 2], so the first trail entry diffs the oldest row against the live state. | Newest first, as for a saved record (the comment on line 140): fetch the rows in ascending order before appending and reversing. | medium, not executed | PaperTrail.NewRecordOrderAsWrittenNotDescending | PaperTrail.NewRecordBoundaries |
