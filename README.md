# Application import partitioner and actions helpers of auth0-cli

This project models two parts of the auth0 command-line tool in Dafny.

**Application import** (`internal/cli/importcmd/apps.go`). The import reads the
tenant's existing applications and the applications described in a YAML
configuration. It matches them by name into three name-keyed maps:

- `creates`: every configured name, holding the last app of that name.
- `updates`: every existing app whose name is also configured.
- `deletes`: every existing app whose name is not configured.

It then hands the maps to the later steps and reports how many creates,
updates and deletes it carried out. `AppImport.DistributeAppOperations` is the
matching loop itself, proved equal to the reference plan `AppImport.Distribute`.
The lemmas state what that plan guarantees:

- coverage of the configured names;
- last-writer-wins on duplicate names;
- the value stored in `updates` is the existing app;
- the disjoint split of the existing names;
- the sizes of the three maps.

`AppImport.ImportApps` is the orchestration. Fetching, YAML mapping, diffing,
map-to-slice conversion and processing are parameters, because their bodies in
the source are empty stubs.

**Actions logs helpers** (`internal/cli/actions.go`). These are:

- the filter that keeps only triggers whose status is `CURRENT`;
- the builders of the trigger and action picker options;
- the `<none>` option put in front of a picker;
- the lookup of an action by exact name;
- how the logs command turns the chosen trigger and action into its filter.

The HTTP request that lists triggers or actions is replaced by its decoded
payload or its error, passed in as a `Result`.

Files: `wrappers.dfy` (Option and Result), `app_import.dfy` (module
`AppImport`), `actions.dfy` (module `Actions`).

Duplicate names resolve last-writer-wins by map insertion
(internal/cli/importcmd/apps.go:49-50, 60, 63); conflict handling is only a
TODO (internal/cli/importcmd/apps.go:66); diff and execution are empty stubs.

## Model

| member | source | states |
|---|---|---|
| `AppImport.DistributeAppOperations` | internal/cli/importcmd/apps.go:47-68 | the two insertion loops build exactly the plan `Distribute`: `creates` indexes the new apps by name, `updates` holds the indexed existing apps whose name is a `creates` key, `deletes` the others |
| `AppImport.IndexKeys` | internal/cli/importcmd/apps.go:48-51 | a name-keyed map built by insertion has exactly the listed names as keys, and each app is stored under its own name |
| `AppImport.IndexLastWriter` | internal/cli/importcmd/apps.go:49-50 | an app that no later app shares a name with is the value stored under its name (last writer wins) |
| `AppImport.CreatesKeys` | internal/cli/importcmd/apps.go:48-51 | the keys of `creates` are exactly the new apps' names, whatever the existing apps are, so matched names are not removed from `creates` |
| `AppImport.CreatesLastWriter` | internal/cli/importcmd/apps.go:49-50 | of several new apps sharing a name, `creates` holds the last one in list order |
| `AppImport.MatchedGoesToUpdates` | internal/cli/importcmd/apps.go:56-60 | an existing app whose name is a new app's name is in `updates` and not in `deletes`; the stored value is an existing app, and it is this app when no later existing app has its name |
| `AppImport.UnmatchedGoesToDeletes` | internal/cli/importcmd/apps.go:61-64 | an existing app whose name is no new app's name is in `deletes` and not in `updates`; the stored value is an existing app, and it is this app when no later existing app has its name |
| `AppImport.Partition` | internal/cli/importcmd/apps.go:56-65 | the `updates` and `deletes` keys are disjoint and together are exactly the existing names; `updates` keys are `creates` keys; `deletes` keys are not |
| `AppImport.Sizes` | internal/cli/importcmd/apps.go:47-68 | `creates` has one entry per distinct new name, `updates` one per name both existing and new, `deletes` one per existing name that is not new |
| `AppImport.NoNewApps` | internal/cli/importcmd/apps.go:47-65 | with no new apps, `creates` and `updates` are empty and every existing name is a `deletes` key |
| `AppImport.NoSharedNames` | internal/cli/importcmd/apps.go:47-65 | when no name is shared, `updates` is empty and `deletes` is the whole index of existing apps |
| `AppImport.ImportApps` | internal/cli/importcmd/apps.go:11-37 | a fetch or processing failure gives counts 0,0,0 and that error; on success the counts are the lengths of the three slices. When slicing keeps sizes, the create count is the number of distinct new names and the delete count the number of existing names not among them |
| `Actions.CurrentTriggersCount` | internal/cli/actions.go:195-201 | the filtered list has each `CURRENT` trigger as often as the payload has it, and no trigger of another status |
| `Actions.CurrentTriggersMembers` | internal/cli/actions.go:195-201 | a trigger is kept exactly when it is in the payload and its status equals `CURRENT` |
| `Actions.CurrentTriggersOrdered` | internal/cli/actions.go:195-201 | the filtered list is a subsequence of the payload, in the same relative order, and never longer |
| `Actions.ListActionsTriggers` | internal/cli/actions.go:185-202 | a request error is passed through; otherwise the append loop returns exactly the `CURRENT` triggers in order |
| `Actions.TriggerPickerOptions` | internal/cli/actions.go:106-122 | a listing error is passed through; otherwise one option per current trigger, in order, with the trigger ID as both value and label |
| `Actions.ActionPickerOptions` | internal/cli/actions.go:124-140 | a listing error is passed through; otherwise one option per action, in order, with the action name as both value and label |
| `Actions.PickerOptionsWithNone` | internal/cli/actions.go:243-251 | an input error is passed through with no options; otherwise the result is one longer, starts with the `<none>` option (label and value `<none>`), and the rest is the input in order |
| `Actions.FirstNamed` | internal/cli/actions.go:168-172 | the position found holds an action whose name equals the query exactly, and no earlier action has that name; no position means no action has that name |
| `Actions.GetActionByName` | internal/cli/actions.go:161-175 | the search loop returns the first action in list order whose name equals the query exactly; it errs exactly when the listing failed or no action has that name |
| `Actions.ResolveLogsFilter` | internal/cli/actions.go:83-94 | a trigger of `<none>` becomes `""` and any other trigger is kept unchanged. With no action name or `<none>`, no lookup happens and the action ID is `""`. Otherwise the lookup's error is returned, or the ID of the first action with that exact name |

## Left out

- HTTP plumbing (`doReq`, internal/cli/actions.go:204-239): tenant lookup, URL, bearer header, the HTTP client and JSON coding are I/O. `listActions` (internal/cli/actions.go:147-159) is only such a request, so its decoded payload or error is an input of the model.
- Command wiring (`actionsCmd`, the `logs` command's flags, the `Select` prompts and `log.Printf`, internal/cli/actions.go:33-104) is user interface. Only the normalisation at lines 83-94 is modelled. The prompted values are inputs.
- `pickerOptions.labels()` is defined outside the modelled files and only feeds the prompt.
- Go's nil slice and empty slice are not told apart. With no triggers or actions the builders yield an empty sequence.
- `getAllApps`, `mapYamlToApps`, `diffApps`, `appsMapToSlice` and `processAppOperations` (internal/cli/importcmd/apps.go:39-80) have empty bodies. They are parameters of `AppImport.ImportApps` and no behaviour is assumed for them.
- Conflict handling (internal/cli/importcmd/apps.go:66) is a TODO in the code and is not modelled. The code has no field-level diff, operation ordering or partial-failure handling.
- Concurrency and cancellation do not occur in the modelled code.
- Role display (internal/display/roles.go) is terminal table rendering.
