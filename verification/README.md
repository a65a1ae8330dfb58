# backupPVAction, modelled in Dafny

This project models the backup item action that Ark (later Velero) runs on
every PersistentVolumeClaim it backs up. The action reads the claim's
`spec.volumeName`. If the claim is bound to a volume, the action returns the
claim unchanged and names that PersistentVolume as one more item to back up.
If the claim is not bound, it returns nothing.

Files:

- `wrappers.dfy` (module `Wrappers`): `Option` stands for Go's nil and `Result` for a `(value, error)` pair.
- `unstructured.dfy` (module `Unstructured`): the schema-less content as a `Value` tree.
  It also holds the dotted-path lookup the action calls: `Split` works like Go's `strings.Split`, and `Walk`, `GetValue` and `GetString` follow the keys.
- `backup_pv_action.dfy` (module `BackupPVAction`): `GroupResource`, `ResourceIdentifier` and `ResourceSelector`, plus the `pvGroupResource` constant, `AppliesTo` and `Execute`.
  It also has `BoundVolume`, an independent reference reading of `spec.volumeName` written directly on the maps, and lemmas that tie `Execute` to it.

The lookup package `pkg/util/collections` is not part of this model. Its
`GetString` is modelled under one assumption. The path is split at every `.`,
and the keys are followed through nested maps. A step fails with `KeyNotFound`
when its key is absent. It fails with `NotAMap` when a value that still has
keys after it is not a map. The final value must be a string, or the lookup
fails with `NotAString`.

Two behaviours of the Go code are kept as written:

- Every lookup failure is swallowed exactly like a missing field (line 60).
  That covers an absent field, a `spec` that is not a map, and a `volumeName` that is not a string.
  A stricter contract would report a present-but-wrong-typed field as an error.
  This code does not, and the model follows the code (`ExecuteWrongShapeIsNotAnError`).
- When no volume is found, the returned item is nil (`None`), not the input item (line 62).

## Model

| member | source | states |
|---|---|---|
| BackupPVAction.AppliesTo | pkg/backup/backup_pv_action.go:41-45 | The selector includes exactly the resource `persistentvolumeclaims`. Every other selector field is empty, and no error is returned. |
| BackupPVAction.Execute | pkg/backup/backup_pv_action.go:49-71 | Execute never returns an error. The item is either nil or the input item unchanged, so Execute writes nothing to it. An item is returned exactly when there is one additional identifier. A nil item comes with no identifiers. Every identifier is a cluster-scoped `persistentvolumes` in the core group with a non-empty name. |
| BackupPVAction.ExecuteFollowsBoundVolume | pkg/backup/backup_pv_action.go:56-70 | The whole result of Execute is fixed by the independent reading `BoundVolume`. If no volume is bound, nothing is returned. If volume `v` is bound, the result is the item itself plus the identifier of PV `v`. |
| BackupPVAction.VolumeNameLookup | pkg/backup/backup_pv_action.go:56 | The lookup of `spec.volumeName` returns the string that is there. Otherwise it returns one of three distinct failures: a key is absent, `spec` is not a map, or `volumeName` is not a string. |
| BackupPVAction.VolumeNamePathKeys | pkg/backup/backup_pv_action.go:56 | The dotted path `spec.volumeName` names the two keys `spec` and then `volumeName`. |
| BackupPVAction.ExecuteMissingVolumeName | pkg/backup/backup_pv_action.go:56-63 | An absent `spec` or `volumeName` makes the lookup fail with `KeyNotFound`. Execute then returns no item, no identifiers and no error. |
| BackupPVAction.ExecuteWrongShapeIsNotAnError | pkg/backup/backup_pv_action.go:56-63 | A `spec` that is not a map, or a `volumeName` that is not a string, makes the lookup fail with a type error. Execute still returns no item, no identifiers and no error. |
| BackupPVAction.ExecuteEmptyVolumeName | pkg/backup/backup_pv_action.go:60-62 | A `volumeName` equal to `""` is found by the lookup but still counts as unbound: no item, no identifiers, no error. |
| BackupPVAction.ExecuteBoundClaim | pkg/backup/backup_pv_action.go:65-70 | A non-empty `volumeName` `v` yields the unmodified item plus exactly one identifier. That identifier has group `""`, resource `persistentvolumes`, an empty namespace and name `v`. |
| BackupPVAction.ExecuteDependsOnlyOnVolumeName | pkg/backup/backup_pv_action.go:56-68 | Two items with the same lookup result get the same additional identifiers, and either both return an item or neither does. |
| BackupPVAction.ExecuteIgnoresOtherFields | pkg/backup/backup_pv_action.go:54-56 | Changing a top-level field other than `spec` does not change the additional identifiers. |
| BackupPVAction.ExecuteOutputOutsideSelector | pkg/backup/backup_pv_action.go:39-45 | The reported `persistentvolumes` kind is not among the selector's included resources. |
| Unstructured.GetString | pkg/backup/backup_pv_action.go:56 | The lookup yields a string exactly when the value at the path is a string. A failure of the path walk is passed through unchanged. |
| Unstructured.GetValue | pkg/backup/backup_pv_action.go:56 | A path without separators looks up that one key of the root, failing with `KeyNotFound` when it is absent. Any failure names one of the path's keys and is never `NotAString`. |
| Unstructured.Walk | pkg/backup/backup_pv_action.go:56 | A failed walk names one of the path's keys and is either `KeyNotFound` or `NotAMap`. `NotAMap` never names the last key. |
| Unstructured.WalkAppend | pkg/backup/backup_pv_action.go:56 | Walking `p + q` is walking `p`, then walking `q` from the map `p` reached. A prefix that ends on a non-map stops with `NotAMap`. |
| Unstructured.WalkIgnoresOtherKeys | pkg/backup/backup_pv_action.go:56 | A walk reads only the root entry for its first key. |
| Unstructured.Split | pkg/backup/backup_pv_action.go:56 | Splitting a dotted path gives at least one part, and no part contains the separator. |
| Unstructured.JoinSplit | pkg/backup/backup_pv_action.go:56 | Joining the parts of a split path gives back the path. |
| Unstructured.SplitJoin | pkg/backup/backup_pv_action.go:56 | Splitting a join of separator-free keys gives back the keys. |

## Left out

- Logging through `a.log.Info` (lines 50 and 61) is left out. It has no effect on the results.
- `NewBackupPVAction` and the `log` field are left out. The logger is the only state the action has.
- The `backup *v1.Backup` argument is never read. `Execute` is generic in its type, so the model cannot read it either.
- Go does not tell a nil slice from an empty one by length. Both appear as the empty sequence.
- `Value` does not tell numbers, booleans, lists and null apart. All of them are `Other`: the action only tells maps, strings and everything else apart.
- The internals of `pkg/util/collections` are not part of this model. The assumed behaviour is described above, and the exact Go error messages are not modelled.
- `runtime.Unstructured` and `schema.GroupResource` are replaced by plain datatypes.
- Selector matching, the action registry and the backup engine (queue, deduplication, error list, archive) are not part of this model. Their code is not among the modelled files.
