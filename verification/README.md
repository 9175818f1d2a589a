# PeoplePulse front-end core, modelled in Dafny

PeoplePulse is a browser front-end for a small HR system. Almost all of it is markup and
calls into a vendor SDK. This project models the few pieces of pure logic it has and proves
properties about them:

- **Record gateway** (`record_gateway.dfy`, `entities.dfy`). The employee, department,
  location, event and user services share one shape. Before calling the record SDK they:
  - cut the input record down to the entity's allow-list of writable fields;
  - add `Id` to update payloads;
  - turn a `{field: value}` filter object into an optional single `AND` where-group of
    `ExactMatch` conditions.

  After the call they read the reply: `data || []` for fetches. For writes, a rejected
  response becomes an error with `message || 'Failed to <verb> <noun>'`.
  `RecordGateway` is generic over an `Entity` (table, noun, writable fields, fetched fields).
  `Entities` instantiates it five times.
- **Icon resolver** (`icon_utils.dfy`, `text.dfy`). `getIcon` converts kebab-case to
  PascalCase by split / capitalise / join. It then looks the name up in the icon library,
  falling back to `HelpCircle`. The conversion is related to an independent one-pass
  definition (`IconUtils.Scan`) and to `Join` as the inverse of `Split`.
- **Invite form** (`invite_form.dfy`). E-mail validation, then the submitting, success and
  failure transitions, then the "Send Another Invite" reset. The send outcome is an input.
- **Theme preference** (`theme.dfy`). The initial dark mode is resolved from the saved string
  and the system preference. The model also covers the toggle and the effect that keeps the
  root `dark` class and the saved string in step.
- **Shell navigation** (`shell.dfy`). It covers the active module, the sidebar, the "coming
  soon" notice and which content branch is rendered. The viewport width is an input.

JavaScript values are modelled in `js_value.dfy` (`Value`, truthiness, `a || b`, property
access). `wrappers.dfy` holds `Option` and `Result`. Records are `map<string, Value>`.
Filter objects are sequences of `(field, value)` entries, so the order of conditions is kept.

The source has no employee directory with search, filters, add/edit modals or delete
confirmation. `src/components/MainFeature.jsx` only fetches and renders a placeholder. So
no directory store is modelled.

## Model

| member | source | states |
|---|---|---|
| `RecordGateway.Writable` | src/services/employeeService.js:63-66 | the filtered record's keys are exactly the input's keys that are in the allow-list; every kept value is the input's value |
| `RecordGateway.WritableIdempotent` | src/services/employeeService.js:64-66 | filtering an already filtered record returns it unchanged |
| `RecordGateway.WritableFixedPoints` | src/services/locationService.js:61-63 | filtering leaves a record unchanged exactly when all its keys are writable |
| `RecordGateway.WritableSize` | src/services/departmentService.js:61-63 | a filtered record has at most as many keys as there are writable fields |
| `RecordGateway.WritableExcludesSystemFields` | src/services/employeeService.js:13-15 | for a sound entity no system field (`Id`, `CreatedOn`, `CreatedBy`, `ModifiedOn`, `ModifiedBy`) survives the filter |
| `RecordGateway.CreateRequest` | src/services/employeeService.js:63-72 | the create call goes to the entity's table with exactly one record: the input's writable fields with their values |
| `RecordGateway.UpdateRequest` | src/services/employeeService.js:95-107 | the update call goes to the entity's table with one record: the writable fields plus `Id`, which equals the argument whatever the input's `Id` was |
| `RecordGateway.UpdateIsCreatePlusId` | src/services/departmentService.js:92-98 | removing `Id` from the update payload gives the create payload; re-filtering it drops the `Id` |
| `RecordGateway.UpdateIgnoresInputId` | src/services/locationService.js:93-98 | changing the input's `Id` does not change the update payload: the argument always wins |
| `RecordGateway.PayloadsExcludeSystemFields` | src/services/userService.js:93-98 | a create payload has no system field; an update payload's only system field is `Id` |
| `RecordGateway.DeleteRequest` | src/services/employeeService.js:129-133 | the delete call goes to the entity's table and names the single identifier given |
| `RecordGateway.FetchRequest` | src/services/employeeService.js:27-46 | the fetch asks for the entity's fields on its table; `whereGroups` is present iff there are filter entries, and then holds one `AND` group with one `ExactMatch` condition per entry, in entry order, with `values` the singleton of the entry's value |
| `RecordGateway.ExactMatch` | src/services/employeeService.js:38-42 | one filter entry as an `ExactMatch` condition on its field with the singleton list of its value; its use is stated by `RecordGateway.FetchRequest` |
| `RecordGateway.FetchRequestRoundTrip` | src/services/eventService.js:32-41 | the filter entries can be read back from the query unchanged and in order |
| `RecordGateway.FetchRequestsWritableFields` | src/services/employeeService.js:14-30 | for a sound entity every writable field, and `Id`, is among the fetched fields |
| `RecordGateway.DefaultMessage` | src/services/employeeService.js:75 | the default error is `Failed to `, then the verb's name (`create`, `update` or `delete`), a space, and the entity's noun |
| `RecordGateway.Rejection` | src/services/employeeService.js:74-76 | the error carries the response message when truthy, else the default message, so it is always truthy (a truthy non-string message such as `[]` can still stringify to an empty `Error` message, see below) |
| `RecordGateway.FetchOutcome` | src/services/employeeService.js:46-51 | a returned fetch always succeeds with a truthy value: `data` when truthy, else the empty list; a thrown SDK error is rethrown |
| `RecordGateway.FirstResultData` | src/services/employeeService.js:78 | reading `results[0].data` fails exactly when there is no first result (or it is `null`/`undefined`); otherwise it gives the first result's own `data` field, and `undefined` when that result is not an object with a `data` field |
| `RecordGateway.WriteOutcome` | src/services/employeeService.js:72-82 | a create or update succeeds only when the response reports success, and then returns the first result's data; otherwise it fails with the rejection or the rethrown SDK error |
| `RecordGateway.DeleteOutcome` | src/services/employeeService.js:133-143 | a delete returns `true` iff the response reports success; otherwise it fails with the message or `'Failed to delete <noun>'` |
| `RecordGateway.RejectionNeverSilent` | src/services/departmentService.js:104-108 | a non-success write always fails with a rejection whose message is truthy |
| `Entities.Employee` | src/services/employeeService.js:10-30 | table `employee`, noun `employee`, the eleven writable fields and the sixteen fetched fields |
| `Entities.Department` | src/services/departmentService.js:10-27 | table `department`, writable `Name`, `Tags`, `Owner`, and the fetched fields |
| `Entities.Location` | src/services/locationService.js:10-27 | table `location`, writable `Name`, `Tags`, `Owner`, and the fetched fields |
| `Entities.Event` | src/services/eventService.js:10-27 | table `event`, writable fields with `title`, `date`, `type`, and the fetched fields |
| `Entities.User` | src/services/userService.js:10-27 | table `User1`, noun `user`, writable fields with `email`, `role`, `darkModeEnabled`, and the fetched fields |
| `Entities.UserTable` | src/services/userService.js:11 | every user-service call goes to table `User1` |
| `Entities.EmployeeWellFormed` | src/services/employeeService.js:13-30 | the employee allow-list has no system field and is covered by the fetched fields, which include `Id` |
| `Entities.DepartmentWellFormed` | src/services/departmentService.js:13-27 | the same for departments |
| `Entities.LocationWellFormed` | src/services/locationService.js:13-27 | the same for locations |
| `Entities.EventWellFormed` | src/services/eventService.js:13-27 | the same for events, including `title`, `date` and `type` |
| `Entities.UserWellFormed` | src/services/userService.js:13-27 | the same for users, including `email`, `role` and `darkModeEnabled` |
| `Entities.DepartmentAllowList` | src/services/departmentService.js:14 | the department allow-list is `{Name, Tags, Owner}` |
| `Entities.LocationAllowList` | src/services/locationService.js:14 | the location allow-list is `{Name, Tags, Owner}` |
| `Entities.EventAllowList` | src/services/eventService.js:14 | the event allow-list is `{Name, Tags, Owner, title, date, type}` |
| `Entities.DepartmentCreatePayload` | src/services/departmentService.js:61-67 | a department create payload's keys are a subset of `{Name, Tags, Owner}`, so at most 3, with values unchanged |
| `Entities.LocationCreatePayload` | src/services/locationService.js:61-67 | a location create payload's keys are a subset of `{Name, Tags, Owner}`; it never has `Id`; filtering it again changes nothing |
| `Entities.EventCreatePayload` | src/services/eventService.js:14-63 | an event create payload keeps only the six event fields, each of which the fetch requests |
| `Entities.UserPayloadsDropSystemFields` | src/services/userService.js:61-98 | system fields given to the user service never reach a create payload; in an update payload the only one is `Id`, equal to the argument |
| `Entities.EmployeePayloads` | src/services/employeeService.js:96-101 | an employee create payload has no system field; the update payload is the create payload plus `Id` |
| `Entities.EmployeeCreateMessage` | src/services/employeeService.js:75 | the default create error is `'Failed to create employee'` |
| `Entities.EmployeeDeleteMessage` | src/services/employeeService.js:136 | the default delete error is `'Failed to delete employee'` |
| `Entities.DepartmentUpdateMessage` | src/services/departmentService.js:107 | the default update error is `'Failed to update department'` |
| `Entities.LocationDeleteMessage` | src/services/locationService.js:133 | the default delete error is `'Failed to delete location'` |
| `Entities.EventCreateMessage` | src/services/eventService.js:72 | the default create error is `'Failed to create event'` |
| `Entities.UserUpdateMessage` | src/services/userService.js:107 | the default update error is `'Failed to update user'` |
| `JsValue.Or` | src/services/employeeService.js:47 | `a \|\| b` is `a` when `a` is truthy and `b` otherwise |
| `JsValue.OrTruthyFallback` | src/services/employeeService.js:75 | `a \|\| b` is truthy whenever the fallback `b` is |
| `JsValue.Truthy` | src/services/employeeService.js:47 | the truthiness that `\|\|` and `!` apply: `undefined`, `null`, `false`, `0` and `''` are falsy, every array and object is truthy |
| `JsValue.FalsyValues` | src/services/employeeService.js:74 | a value is falsy exactly when it is one of `undefined`, `null`, `false`, `0` and `''` |
| `JsValue.Prop` | src/services/employeeService.js:78 | reading an own data field such as `.data`: the object's field when present and `undefined` otherwise (inherited and built-in properties are not modelled) |
| `Text.Upper` | src/utils/iconUtils.js:12 | `toUpperCase` maps `a`-`z` to `A`-`Z` and leaves every other character alone |
| `Text.Capitalize` | src/utils/iconUtils.js:12 | `charAt(0).toUpperCase() + slice(1)` keeps the length, upper-cases the first character and keeps the rest |
| `Text.CapitalizeIdempotent` | src/utils/iconUtils.js:12 | capitalising twice is capitalising once |
| `IconUtils.ToPascal` | src/utils/iconUtils.js:10-13 | split on `-`, capitalise each part, concatenate; its meaning is stated by `IconUtils.ToPascalIsScan` and the lemmas below |
| `IconUtils.CapitalizeAll` | src/utils/iconUtils.js:12-13 | the `map(...)` and `join('')` steps: each part capitalised, then concatenated in order |
| `IconUtils.Join` | src/utils/iconUtils.js:11 | the inverse of `split('-')`, used as its partner in `IconUtils.JoinSplit` and `IconUtils.SplitJoin` |
| `IconUtils.Split` | src/utils/iconUtils.js:11 | `split('-')` always yields at least one part |
| `IconUtils.SplitCount` | src/utils/iconUtils.js:11 | there is one more part than there are dashes |
| `IconUtils.SplitNoDash` | src/utils/iconUtils.js:11 | no part contains a dash |
| `IconUtils.JoinSplit` | src/utils/iconUtils.js:11 | joining the parts with `-` gives back the name |
| `IconUtils.SplitJoin` | src/utils/iconUtils.js:11 | splitting a `-`-join of dash-free parts gives back those parts |
| `IconUtils.SplitDashFree` | src/utils/iconUtils.js:11 | a dash-free name splits into itself |
| `IconUtils.SplitPrefix` | src/utils/iconUtils.js:11 | a dash-free prefix before a dash becomes the first part |
| `IconUtils.ScanMatchesSegments` | src/utils/iconUtils.js:10-13 | the one-pass scan equals capitalising and concatenating the split parts |
| `IconUtils.ToPascalIsScan` | src/utils/iconUtils.js:10-13 | the conversion equals the one-pass scan: dashes dropped, characters at the start or after a dash upper-cased |
| `IconUtils.ScanNoDash` | src/utils/iconUtils.js:10-13 | the scan never outputs a dash |
| `IconUtils.ScanLength` | src/utils/iconUtils.js:10-13 | the scan's output is as long as its input minus its dashes |
| `IconUtils.ScanFirstUpper` | src/utils/iconUtils.js:12 | the first character of a fresh scan is unchanged by upper-casing |
| `IconUtils.ScanDashFree` | src/utils/iconUtils.js:12 | on a dash-free name the scan only upper-cases the first character |
| `IconUtils.ToPascalNoDash` | src/utils/iconUtils.js:10-13 | the converted name contains no `-` |
| `IconUtils.ToPascalLength` | src/utils/iconUtils.js:10-13 | the converted name is as long as the name minus its dashes, so empty segments contribute nothing |
| `IconUtils.ToPascalIdempotent` | src/utils/iconUtils.js:10-13 | converting an already converted name gives the same name |
| `IconUtils.ToPascalOfJoin` | src/utils/iconUtils.js:9-13 | dash-free segments joined with `-` convert to each segment in order with its first character upper-cased, e.g. `arrow-right` to `ArrowRight` |
| `IconUtils.ArrowRight` | src/utils/iconUtils.js:9 | the documented example: `arrow-right` converts to `ArrowRight` |
| `IconUtils.GetIcon` | src/utils/iconUtils.js:14 | the lookup is total: the registry entry for the converted name when present, else the `HelpCircle` entry |
| `IconUtils.GetIconKebabOrPascal` | src/utils/iconUtils.js:8-14 | a kebab-case name and its PascalCase form resolve to the same icon |
| `InviteForm.ValidEmail` | src/components/InviteForm.jsx:15 | the handler's check: the address is non-empty and contains `@`; `InviteForm.ValidEmailIffAt` reduces it to containing `@` |
| `InviteForm.ValidEmailIffAt` | src/components/InviteForm.jsx:15 | an address passes validation exactly when it contains `@`; the emptiness test is implied |
| `InviteForm.BeginSubmit` | src/components/InviteForm.jsx:12-20 | an invalid address is rejected with an error toast and the form unchanged; a valid one sets `isSubmitting` and sends the e-mail and name |
| `InviteForm.FinishSubmit` | src/components/InviteForm.jsx:22-33 | after the send `isSubmitting` is false; success sets `success` and clears both fields; failure keeps `email`, `name` and `success` and shows an error toast |
| `InviteForm.Submit` | src/components/InviteForm.jsx:12-34 | an invite is sent iff the address is valid; exactly one toast is shown, a success toast iff the invite was valid and delivered |
| `InviteForm.SubmitInvalid` | src/components/InviteForm.jsx:15-18 | an empty or `@`-less address sends nothing, leaves every field as it was and shows the validation error |
| `InviteForm.SubmitIgnoresNameForValidation` | src/components/InviteForm.jsx:15 | whether an invite is sent depends on the address alone; the name is optional |
| `InviteForm.SubmitDelivered` | src/components/InviteForm.jsx:23-27 | a delivered invite sets `success` and empties `email` and `name` |
| `InviteForm.SubmitFailed` | src/components/InviteForm.jsx:28-30 | a failed send keeps `email`, `name` and `success` and shows the failure toast |
| `InviteForm.SubmitSettles` | src/components/InviteForm.jsx:31-33 | after any send attempt `isSubmitting` is false |
| `InviteForm.SendAnother` | src/components/InviteForm.jsx:53 | "Send Another Invite" clears `success` and changes nothing else |
| `InviteForm.EditEmail` | src/components/InviteForm.jsx:67 | typing an address changes only `email` |
| `InviteForm.EditName` | src/components/InviteForm.jsx:63 | typing a name changes only `name` |
| `InviteForm.IdleInvariant` | src/components/InviteForm.jsx:43-73 | the form starts idle and every action keeps it idle: not submitting, and both inputs empty while the success panel shows |
| `Theme.Persisted` | src/App.jsx:21 | the saved value is the string form of the mode: `'true'` for dark, `'false'` for light |
| `Theme.InitialDark` | src/App.jsx:10-11 | a saved `'true'` means dark, any other non-empty saved value light, and with nothing or `''` saved the system preference decides |
| `Theme.SavedTrueIsDark` | src/App.jsx:11 | a saved `'true'` means dark whatever the system prefers |
| `Theme.SavedOtherIsLight` | src/App.jsx:11 | any other non-empty saved value means light whatever the system prefers |
| `Theme.NothingSavedFollowsSystem` | src/App.jsx:11 | with nothing or an empty string saved, the mode follows the system preference |
| `Theme.PersistedRoundTrip` | src/App.jsx:11-21 | resolving the saved string gives back the mode that was saved |
| `Theme.Sync` | src/App.jsx:14-22 | the effect saves the mode's string and puts `dark` on the root iff the mode is dark, leaving other classes alone |
| `Theme.Mount` | src/App.jsx:10-22 | page load resolves the mode and leaves class list and storage in step with it; root classes other than `dark` are kept |
| `Theme.Toggle` | src/App.jsx:24-26 | the toggle negates the mode and leaves the page in step; root classes other than `dark` are kept |
| `Theme.ToastTheme` | src/App.jsx:40 | the toast theme is `'dark'` iff the mode is dark, and `'light'` otherwise |
| `Theme.ToggleTwice` | src/App.jsx:24-26 | toggling twice gives back the same page |
| `Theme.ReloadRestoresMode` | src/App.jsx:10-21 | reloading restores the mode the page was left in, whatever the system prefers |
| `Shell.Modules` | src/pages/Home.jsx:12-21 | the eight sidebar entries, with id, label and icon name, in order |
| `Shell.ComingNotice` | src/pages/Home.jsx:44 | the info toast text for a module that is not available; `Shell.NoticeCapitalizesFirstOnly` states what it shows |
| `Shell.ComingSoonText` | src/pages/Home.jsx:287 | the placeholder paragraph of the coming-soon branch; `Shell.NoticeCapitalizesFirstOnly` states what it shows |
| `Shell.Rendered` | src/pages/Home.jsx:166-290 | the content branches whose guards hold for the active module; `Shell.ExactlyOneBranch` states that there is exactly one |
| `Shell.Available` | src/pages/Home.jsx:43 | the modules with content in this version, `employees` and `dashboard` (the negated test at line 277 too); its use is stated by `Shell.ModuleClick` and `Shell.ExactlyOneBranch` |
| `Shell.ModuleClick` | src/pages/Home.jsx:36-48 | a click makes `id` active; the sidebar is closed when the viewport is narrower than 768 and otherwise kept as it was; a notice is emitted iff `id` is neither `employees` nor `dashboard` |
| `Shell.ToggleSidebar` | src/pages/Home.jsx:32-34 | the toggle negates `isSidebarOpen` and keeps the active module |
| `Shell.CloseSidebar` | src/pages/Home.jsx:60 | a backdrop click closes the sidebar and keeps the active module |
| `Shell.ToggleSidebarTwice` | src/pages/Home.jsx:32-34 | toggling the sidebar twice changes nothing |
| `Shell.ModuleClickSidebar` | src/pages/Home.jsx:38-40 | on a wide viewport a click keeps the sidebar state; on a narrow one it is the same as closing the sidebar |
| `Shell.NoticeCapitalizesFirstOnly` | src/pages/Home.jsx:44 | the notice, and the placeholder text of line 287, show the id with only its first character upper-cased |
| `Shell.ExactlyOneBranch` | src/pages/Home.jsx:166-277 | exactly one of the dashboard, employees and coming-soon branches renders, the last exactly for modules that are not available |
| `Shell.NoticeMatchesBranch` | src/pages/Home.jsx:43-47 | after a click, the coming-soon branch shows exactly when a notice was emitted |
| `Shell.ModuleIdsDistinct` | src/pages/Home.jsx:12-21 | the sidebar entries have distinct ids |
| `Shell.Highlighted` | src/pages/Home.jsx:96 | a sidebar entry is highlighted when its id is the active module; `Shell.ClickHighlightsOne` states the consequence |
| `Shell.ClickHighlightsOne` | src/pages/Home.jsx:93-101 | clicking a sidebar entry highlights that entry and no other |
| `Shell.InitialState` | src/pages/Home.jsx:8-9 | the shell opens on the dashboard with the sidebar open, and the dashboard branch and entry are shown |

## Left out

- SDK construction and the SDK calls themselves (`getApperClient`, `fetchRecords`,
  `createRecord`, `updateRecord`, `deleteRecord`) are foreign. The model builds the call's
  table and arguments and takes the SDK's reply (`Reply`) as an input.
- `console.error` logging in every service and in the invite form is not modelled. Toasts
  are returned as values.
- `Object.entries` lists integer-like keys first, whatever order they were inserted in. The
  model takes the filter entries in the order given. A `null` filter makes `Object.keys`
  throw; that path is not modelled.
- Two `TypeError` paths that the services rethrow are not modelled. A `null` or `undefined`
  record given to create or update makes `Object.entries` throw (employeeService.js:65, 97).
  A `null` or `undefined` SDK response makes reading `response.data` or `response.success`
  throw (employeeService.js:47, 74, 109, 135). Records are always maps and `Reply.Returned`
  always carries a `Response`.
- Record payloads are maps, so the key order of the payload object is not modelled.
- `RecordGateway.Rejection`: the thrown `Error` converts its message to a string. The model
  keeps the JavaScript value of `response.message || default` instead. It proves that value truthy,
  not non-empty: `new Error([]).message` is `''` although `[]` is truthy.
- `RecordGateway.FirstResultData`: `results` is modelled as a list. A response whose
  `results` is missing or not an array is not modelled.
- `JsValue.Prop`: only own data fields of objects are modelled. Inherited and built-in
  properties such as `[1].length` or `({}).toString` give `undefined` here. The services only
  read `.data`, where this is exact.
- `JsValue.Value`: numbers are integers; `NaN` and fractions are not modelled.
- `Text.Upper`: only ASCII `a`-`z` is upper-cased. Non-ASCII `toUpperCase` behaviour, such
  as `ß` becoming `SS`, is not modelled.
- `IconUtils.GetIcon`: the icon library is an abstract map that always has `HelpCircle`. Its
  entries are components, which are always truthy, so a falsy entry is not modelled.
- `InviteForm.Submit`: models `handleSubmit` once it runs. The e-mail input is
  `type="email"` and `required`, and the form has no `noValidate`. So the browser's own
  validation can stop the submission before the handler runs: for `''`, for an address
  without `@`, and for one such as `a@` that the handler would accept. That constraint
  validation is not modelled. `InviteForm.Submit` also assumes nothing is typed while the send is pending.
  `BeginSubmit` and `FinishSubmit` model the two halves separately, for when typing happens.
- The invite service (`src/services/userInviteService.js`) is a timer stub that always
  succeeds. The send outcome is an input.
- `window.matchMedia` is an input (`systemPrefersDark`). `localStorage` is the `saved` field.
  `window.innerWidth` is an input (`viewportWidth`).
- Authentication (`src/services/authService.js`), login, landing and not-found pages,
  animations, routing, CSS breakpoints and all markup are not modelled.
- `src/components/MainFeature.jsx` is not modelled. Its only logic is an early return when
  not authenticated, and the shell never passes that flag.
- async/await ordering and timers are not modelled: there is no concurrency.
