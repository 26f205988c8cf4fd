# Announcement bar plugin: a Dafny model of its server-side core

The plugin stores a storefront announcement bar configuration in the metadata
map of the platform's first store. The configuration has eight fields:
enabled, text, background colour, link, position, dismissible, start time and
end time. This project models the four pieces of server-side logic and proves
their properties:

- `validators.dfy` (module `Validators`) models the admin update body's schema.
  It applies the colour, position and dismissible defaults, checks the types
  and the position enum, and coerces dates. It then runs three independent
  cross-field refinements: text is required when enabled, the colour must be a
  hex colour, and the start must come before the end. The file also models the
  middleware that stores the parsed body on the request and calls `next`.
- `store_route.dfy` (module `StoreRoute`) models the public read path. It has
  the visibility gate (enabled flag plus an inclusive schedule window), the
  projection of a metadata map onto the eight fields, and the storefront GET.
- `admin_route.dfy` (module `AdminRoute`) models the admin GET, which is the
  same projection without the gate, and the admin PUT, which hands the
  validated body to the update workflow and answers 201.
- `update_step.dfy` (module `UpdateStep`) models the workflow step. It
  shallow-merges the update over the first store's metadata and writes it
  back. It also models the compensation, which writes the captured original
  metadata back. The store table is the class `StoreTable`, whose methods
  `Apply` and `Compensate` change it in place.
- `js_values.dfy` (module `JsValues`) holds the JavaScript semantics the core
  relies on. These are JSON values, truthiness, and the `Date` constructor,
  including the ECMAScript TimeClip range.
- `framework.dfy` (module `Framework`) holds the framework's error type, the
  validation library's issue record, the store record and the eight
  configuration keys.

Time is an integer count of milliseconds. The current instant `now` is a
parameter. Date-string parsing is a parameter `parse: string -> Option<int>`,
where `None` is JavaScript's NaN. The model follows the code on unparseable
dates:

- In the gate, an invalid start or end date compares false, so it never hides
  the bar. This is `StoreRoute.UnparseableBoundIgnored`.
- In the validator, an invalid date is refused with an `invalid_date` issue.

The model keeps these behaviours of the code, which a reader might not expect:

- An empty background colour skips the colour check. It is not refused.
- The gate refuses only when `enabled` is missing or exactly `false`. Any other
  value of the key (`null`, `"false"`, `0`) passes the enabled check.
- Compensation does not restore a store whose metadata was `null`, or whose
  identifier is the empty string. Rollback is therefore not complete in those
  cases. This is `UpdateStep.NullMetadataNotRolledBack`.
- A field with the wrong type, an unknown position or an invalid date aborts
  the object parse. The three refinements then do not run, so only the type
  issues are reported. This follows the validation library's behaviour.

## Model

| member | source | states |
|---|---|---|
| `JsValues.NewDate` | src/api/store/announcement-bar/route.ts:21 | `new Date(v)` is either invalid or a time value within ±8.64e15 ms; a Date keeps its instant; a plain object is an invalid date |
| `Validators.ParsePosition` | src/api/admin/announcement-bar/validators.ts:20 | the position enum accepts exactly the four names, and each accepted name maps back to itself |
| `Validators.IsHexRgba` | src/api/admin/announcement-bar/validators.ts:6-7 | the colour check: a `#` followed by exactly 3, 4, 6 or 8 hex digits of either case, anchored at both ends (characterised by `HexColorShape`) |
| `Validators.IsDateTimeRangeValid` | src/api/admin/announcement-bar/validators.ts:8-13 | the range check: invalid only when both dates are present and the start is not strictly before the end (characterised by `RangeBoundaries`) |
| `Validators.DefaultColorIsHex` | src/api/admin/announcement-bar/validators.ts:18 | the default colour `#F68C2C` passes the colour check |
| `Validators.HexColorShape` | src/api/admin/announcement-bar/validators.ts:6-7 | `#` followed by `d` is a colour exactly when `d` is 3, 4, 6 or 8 hex digits of either case |
| `Validators.NoHashNoColor` | src/api/admin/announcement-bar/validators.ts:6-7 | a string that is empty or does not start with `#` is never a colour |
| `Validators.RejectedColors` | src/api/admin/announcement-bar/validators.ts:6-7 | 5 or 7 digits, a missing `#`, a trailing character and non-hex letters are refused |
| `Validators.RangeBoundaries` | src/api/admin/announcement-bar/validators.ts:8-13 | for all instants `s` and `e`, the range from `s` to `e` is valid exactly when `s < e` (equal instants are refused), and a missing start or end is always valid |
| `Validators.ParseShape` | src/api/admin/announcement-bar/validators.ts:15-24 | the parse succeeds exactly when the body is an object whose present keys all hold values of their field's type (a boolean, a string, one of the four positions, a valid date); a success carries every present field as given, leaves absent optional fields absent and fills colour `#F68C2C`, position `top-sticky` and dismissible `true`; a failure names at least one issue and, for an object body, each issue is on a key the body holds |
| `Validators.Refine` | src/api/admin/announcement-bar/validators.ts:26-50 | at most 3 issues, each one of the three custom issues with its exact path and message, in the order text, backgroundColor, startDateTime; each path appears exactly when its rule is broken; no issue exactly when the config is well formed |
| `Validators.Validate` | src/api/admin/announcement-bar/validators.ts:52-54 | sound (an accepted config satisfies all three rules and has valid dates), complete (a well-formed parse is accepted as is); a failed parse is returned with its own issues and the refinements do not run; after a successful parse a rejection carries exactly the refinement issues |
| `Validators.AbsentColorNeverFails` | src/api/admin/announcement-bar/validators.ts:18-41 | an absent colour never yields a colour issue, and an accepted config then has the default colour |
| `Validators.TextIssueExactly` | src/api/admin/announcement-bar/validators.ts:27-33 | a text issue is raised exactly when enabled is true and the text is absent or empty |
| `Validators.UnknownPositionRefused` | src/api/admin/announcement-bar/validators.ts:20 | a position string outside the enum is refused with an enum issue on `position` |
| `Validators.InvalidDateRefused` | src/api/admin/announcement-bar/validators.ts:22-23 | a start or end string that does not parse as a date is refused with an `invalid_date` issue on that key |
| `Validators.ToRecord` | src/api/admin/announcement-bar/validators.ts:15-24 | the parsed body as an object has only configuration keys, always the three defaulted ones, each optional key exactly when that field is present, and each key holding its field's value |
| `Validators.ShapeOfRecord` | src/api/admin/announcement-bar/validators.ts:15-24 | parsing the object form of a config gives the same config back |
| `Validators.RevalidateIsIdentity` | src/api/admin/announcement-bar/validators.ts:52-54 | validation is idempotent: a validated body, as an object, validates to itself |
| `Validators.ValidateAnnouncementBarDto` | src/api/admin/announcement-bar/validators.ts:56-68 | on failure raises INVALID_DATA with the issues, leaves the request and the `next` count alone; on success stores the parsed body and calls `next` exactly once |
| `StoreRoute.GetAnnouncementBarConfig` | src/api/store/announcement-bar/route.ts:40-55 | null exactly for null metadata; otherwise each of the eight fields is the metadata's value under the same key, undefined where the key is absent |
| `StoreRoute.AsJson` | src/api/store/announcement-bar/route.ts:81 | the serialised config has only configuration keys, each holding its defined field |
| `StoreRoute.ProjectionIsRestriction` | src/api/store/announcement-bar/route.ts:45-54 | the projected config is the metadata restricted to the eight keys: every other key is dropped |
| `StoreRoute.ValidateAnnouncementBarConfig` | src/api/store/announcement-bar/route.ts:13-32 | passes exactly when the enabled check passes and `now` lies in the inclusive window of the valid start and end; otherwise raises INVALID_DATA with the message of the first failing guard |
| `StoreRoute.Get` | src/api/store/announcement-bar/route.ts:57-82 | always 200; the body is a config exactly when a store exists and its metadata is visible, and is then the first store's projection |
| `StoreRoute.DisabledIsRefused` | src/api/store/announcement-bar/route.ts:14-16 | null metadata, a missing `enabled` key, or `enabled` exactly false is refused; any other `enabled` value passes that check |
| `StoreRoute.StartIsInclusive` | src/api/store/announcement-bar/route.ts:20-25 | with an enabled config, a valid start time and no end key, the gate refuses before the start and passes at `now == start` |
| `StoreRoute.EndIsInclusive` | src/api/store/announcement-bar/route.ts:26-31 | with an enabled config, a valid end time and no start key, the gate passes at `now == end` and refuses after it |
| `StoreRoute.NoScheduleAlwaysVisible` | src/api/store/announcement-bar/route.ts:13-32 | an enabled config with no start and no end passes at every instant |
| `StoreRoute.UnparseableBoundIgnored` | src/api/store/announcement-bar/route.ts:18-31 | a start or end string that does not parse gives the same answer as an absent one |
| `StoreRoute.InsideWindowVisible` | src/api/store/announcement-bar/route.ts:65-81 | strictly inside a valid window an enabled config is returned by the storefront GET |
| `AdminRoute.Get` | src/api/admin/announcement-bar/route.ts:7-24 | always 200; a config exactly when a store with non-null metadata exists, holding that metadata's eight fields, with no enabled or schedule check |
| `AdminRoute.Put` | src/api/admin/announcement-bar/route.ts:26-34 | the validated body, as an object, is the step's input unchanged; 201 with the updated store, or the step's NOT_FOUND |
| `AdminRoute.AdminSeesWhatStorefrontSees` | src/api/admin/announcement-bar/route.ts:20-23 | whenever the storefront GET returns a config, the admin GET returns the same response |
| `AdminRoute.AdminSeesDisabledConfig` | src/api/admin/announcement-bar/route.ts:20-23 | a disabled config is returned to the admin while the storefront gets null |
| `AdminRoute.AdminSeesExpiredConfig` | src/api/admin/announcement-bar/route.ts:20-23 | an expired config is returned to the admin while the storefront gets null |
| `AdminRoute.PutThenGetReadsBack` | src/api/admin/announcement-bar/route.ts:26-33 | after a PUT, the admin GET reads back every field the body carried, and the configuration keys it left out keep their earlier values |
| `UpdateStep.Merge` | src/workflows/announcement-bar/steps/update-announcement-bar.ts:21-24 | the merged keys are the union; update keys take the update's value; every other key keeps its original value; null metadata adds no keys |
| `UpdateStep.WithMetadata` | src/workflows/announcement-bar/steps/update-announcement-bar.ts:26 | writing a store's metadata keeps every identifier, leaves stores with other identifiers untouched and sets the metadata of the addressed one |
| `UpdateStep.Applied` | src/workflows/announcement-bar/steps/update-announcement-bar.ts:18-26 | the table after the step: unchanged when empty, otherwise the first store's metadata becomes the merge of its metadata with the update (characterised by `AppliedChangesOnlyFirst`, `AppliedIdempotent`) |
| `UpdateStep.Compensated` | src/workflows/announcement-bar/steps/update-announcement-bar.ts:30-39 | the table after the compensation: the captured store gets the captured metadata back only with data, a non-empty id, non-null metadata and a store of that id; otherwise unchanged (characterised by `CompensationRestores`, `CompensationSkips`) |
| `UpdateStep.MergeIdempotent` | src/workflows/announcement-bar/steps/update-announcement-bar.ts:21-24 | merging the same update twice gives the same metadata as once |
| `UpdateStep.MergeKeepsUnrelatedKey` | src/workflows/announcement-bar/steps/update-announcement-bar.ts:21-24 | writing `enabled: true` over `{fooUnrelatedKey: 1, enabled: false}` gives `{fooUnrelatedKey: 1, enabled: true}` |
| `UpdateStep.AppliedChangesOnlyFirst` | src/workflows/announcement-bar/steps/update-announcement-bar.ts:18-26 | the step sets the first store's metadata to the merge and leaves every other store untouched |
| `UpdateStep.AppliedIdempotent` | src/workflows/announcement-bar/steps/update-announcement-bar.ts:18-26 | running the step twice with the same input leaves the same table as running it once |
| `UpdateStep.CompensationRestores` | src/workflows/announcement-bar/steps/update-announcement-bar.ts:33-39 | with a truthy store id and non-null original metadata, compensation after the step restores the table exactly |
| `UpdateStep.NullMetadataNotRolledBack` | src/workflows/announcement-bar/steps/update-announcement-bar.ts:31-34 | a store whose metadata was null keeps the merged metadata after compensation |
| `UpdateStep.CompensationSkips` | src/workflows/announcement-bar/steps/update-announcement-bar.ts:31-34 | no compensation data, an empty store id or null original metadata leaves the table unchanged |
| `UpdateStep.StoreTable.UpdateStores` | src/workflows/announcement-bar/steps/update-announcement-bar.ts:26 | a known id gets the new metadata and nothing else changes; an unknown id is NOT_FOUND and changes nothing |
| `UpdateStep.StoreTable.Apply` | src/workflows/announcement-bar/steps/update-announcement-bar.ts:9-29 | an empty table fails NOT_FOUND with nothing written; otherwise the table becomes the step's result and the response carries the updated store, its id and the original metadata |
| `UpdateStep.StoreTable.Compensate` | src/workflows/announcement-bar/steps/update-announcement-bar.ts:30-40 | the table becomes the compensated table; it fails only when it should restore a store that no longer exists |
| `UpdateStep.ApplyThenCompensate` | src/workflows/announcement-bar/steps/update-announcement-bar.ts:28-39 | the step followed by its compensation leaves the original table whenever the first store has a truthy id and non-null metadata |

## Left out

- The React admin UI (form, preview, colour picker, details view, widget), its data hooks and its SDK client. They are presentation and network wiring. The form's own client-side rules (3/6-digit colours only, 150-character text, URL pattern) are not enforced by the server and are not modelled.
- Route registration: the middleware table and the GET query-parameter schema. The first `validateAndTransformBody` pass with the partial schema is not modelled, and `ValidateAnnouncementBarDto` receives the raw body directly.
- The workflow engine. The workflow only calls the step. When compensation runs (a later failure) is the engine's business; `ApplyThenCompensate` stands for that scenario.
- The store module and the query graph. The store module is an in-memory table of stores with distinct ids, and the query result is the sequence of stores. The not-found message of the store module's update is illustrative.
- The clock and date-string parsing. Both are parameters. A Date written to metadata is read back as the same instant, so JSON serialisation of dates is not modelled. Numbers are integers. JSON arrays are not among the values. `new Date` of an object is taken as invalid.
- Zod's exact built-in messages and paths. Type, enum and date issues carry short messages (`Expected boolean`, `Invalid enum value`, `Invalid date`) rather than the library's full wording. Paths are one key, or empty for the body. The three refinement messages are exact. The INVALID_DATA error carries the issue list instead of its serialised text.
- The `PUT` handler takes the validated body as a parameter, which the middleware guarantees to be set.
- Concurrent PUTs (last write wins) and the atomicity of the store module's update. The model is sequential.
