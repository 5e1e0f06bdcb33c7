# Feature flags of the exchange-house dashboard, in Dafny

This project models the feature-flag system of the csvapp-minimalist
dashboard (a Next.js application that shows currency-exchange houses) and
proves properties of it. The system has four parts:

- **The flag record and its tables** (`src/utils/featureFlags.ts`).
  Twelve boolean capabilities. `DEFAULT_FLAGS` turns all of them off.
  `DEV_FLAGS` and `PROD_FLAGS` are object literals spread over
  `DEFAULT_FLAGS`.
- **The resolver and the store** (`src/utils/featureFlags.ts`).
  `getInitialFlags` picks the record the application boots with: the
  stored `featureFlags` entry, or the environment's table.
  `FeatureFlagsProvider` holds the current record, changes it with
  `updateFlag`, `enableAllFlags` and `disableAllFlags`, and writes it back
  to browser storage as JSON after every change. `withFeatureFlag` and
  `useFeatureFlag` read it.
- **The staged-rollout script** (`scripts/progressive-deployment.js`).
  Four cumulative stages. It reads the command-line options, rewrites the
  `PROD_FLAGS` block of the flags source file with the selected stage, and
  optionally builds and publishes.
- **The two dashboards** (`src/pages/Dashboard.tsx`,
  `src/pages/MinimalDashboard.tsx`). They decide, from the flags, the
  signed-in user, the environment and the two tab states, which widget is
  mounted and which shows its placeholder. Their click handlers change the
  tab state and the flags.

Modules, one file each:

- `FeatureFlags` (`feature_flags.dfy`): the record and the three tables.
  A flag record is modelled as the JavaScript object it is at run time: a
  sequence of `(key, value)` properties in insertion order. The model does
  not use a map from the twelve capabilities. Three things in the program
  depend on keys and their order: a record read back from storage is not
  validated, `JSON.stringify` writes keys in insertion order, and the
  developer panel lists `Object.entries(flags)`.
- `FlagJson` (`flag_json.dfy`): `JSON.stringify` of a flat object of
  booleans, and the part of `JSON.parse` that reads one back. Objects are
  as in RFC 8259, section 4.
- `FlagProvider` (`flag_provider.dfy`): `getInitialFlags`, and the store as
  a class whose `flags` and `saved` fields its methods update.
- `ProgressiveDeployment` (`progressive_deployment.dfy`): the stage table,
  the rendering of a stage as a `PROD_FLAGS` block, and the first-match
  replacement of the pattern
  `/export const PROD_FLAGS: FeatureFlags = \{([^}]+)\};/`.
- `DeploymentCli` (`deployment_cli.dfy`): `main`'s option handling,
  `parseInt(text, 10)` and the ordering of the script's steps. The file
  system and the two shell commands are parameters.
- `DashboardView` (`dashboard_view.dfy`): what the two pages share. This
  covers tabs, widgets, the two loaders (`DynamicComponent` and
  `LazyComponent`) and a view reduced to the flag-driven decisions.
- `Dashboard` (`dashboard.dfy`): the main page, and a class holding its tab
  state.
- `MinimalDashboard` (`minimal_dashboard.dfy`): the reduced page, and a
  class holding its tab state.

Inputs the program gets from its environment are parameters of the model:

| Input in the program | Parameter in the model |
|---|---|
| `typeof window` | `browser` |
| `NODE_ENV === 'production'` | `production` |
| `localStorage.getItem` | `saved` |
| the current user | `signedIn` |
| success of `npm run build` | `buildOk` |
| success of `npx vercel --prod` | `publishOk` |
| contents of the flags source file | `flagsFile` |

Which non-flat texts `JSON.parse` accepts is the oracle `acceptsJson`.

## Model

| member | source | states |
|---|---|---|
| FeatureFlags.NameInjective | src/utils/featureFlags.ts:5-23 | the twelve capabilities have distinct property names |
| FeatureFlags.DefaultTable | src/utils/featureFlags.ts:26-41 | DEFAULT_FLAGS has exactly twelve distinct keys and reads false at every capability |
| FeatureFlags.DevTable | src/utils/featureFlags.ts:44-61 | DEV_FLAGS keeps DEFAULT_FLAGS's keys and their order and reads true at every capability |
| FeatureFlags.ProdTable | src/utils/featureFlags.ts:64-70 | PROD_FLAGS keeps DEFAULT_FLAGS's keys and reads true exactly at enableFirebaseAuth, enableStatusChart and enableFilters, false at the other nine |
| FeatureFlags.OverDefault | src/utils/featureFlags.ts:44-70 | a literal spread over DEFAULT_FLAGS whose entries name distinct capabilities keeps the default keys, reads each entry's value at its key and false at every capability no entry names |
| FeatureFlags.OverrideLookup | src/utils/featureFlags.ts:44-70 | in an object literal `{...base, k1: v1, ...}` with distinct entry keys, a key an entry names reads that entry's value and any other key reads as in base |
| FeatureFlags.OverrideKeys | src/utils/featureFlags.ts:44-70 | a literal that only overrides keys base already has keeps base's key list and its distinct keys |
| FeatureFlags.AssignLookup | src/utils/featureFlags.ts:126-131 | after `{...prev, [key]: value}` the key reads value and every other key reads as before |
| FeatureFlags.AssignKeys | src/utils/featureFlags.ts:126-131 | assigning an existing key keeps the key list; a new key is appended at the end; keys stay distinct |
| FeatureFlags.AssignRestores | src/utils/featureFlags.ts:126-131 | setting a present key and then setting it back to its old value gives the original object, key order included |
| FeatureFlags.SetAllLookup | src/utils/featureFlags.ts:133-153 | the object the reduce builds has the same keys in the same order and reads the given value at each present key and undefined elsewhere |
| FlagJson.Parse | src/utils/featureFlags.ts:83 | a text read as a flat object of booleans gives an object with distinct keys, each writable without escapes |
| FlagJson.ObjectKeys | src/utils/featureFlags.ts:83 | the object built from parsed members, a repeated key keeping its first place, has distinct plain keys |
| FlagJson.MembersRoundTrip | src/utils/featureFlags.ts:122 | the members JSON.stringify writes, followed by `}` and any text, parse back to the same fields and leave that text |
| FlagJson.ParseStringify | src/utils/featureFlags.ts:122 | parsing what JSON.stringify writes for an object with distinct plain keys gives back the same object |
| FlagProvider.GetInitialFlags | src/utils/featureFlags.ts:73-91 | without a window, or with no stored text or an empty one, or with text JSON.parse rejects: the environment's table; with stored text that parses as a flat object of booleans: that object, unmerged; any other accepted JSON is returned as it was parsed |
| FlagProvider.EnvironmentDefaultValues | src/utils/featureFlags.ts:75-77 | the environment's table reads the PROD_FLAGS values in production and true for every capability elsewhere |
| FlagProvider.TablesWellFormed | src/utils/featureFlags.ts:26-70 | the three tables have distinct keys that JSON.stringify writes without escapes |
| FlagProvider.ResolveStored | src/utils/featureFlags.ts:80-84 | text the store persisted resolves on the next boot to exactly the object it held, in either environment |
| FlagProvider.CorruptStoredFallsBack | src/utils/featureFlags.ts:82-90 | stored text that JSON.parse rejects resolves to the environment's table, with no error escaping |
| FlagProvider.StoredRecordNotMerged | src/utils/featureFlags.ts:81-84 | a stored `{}` resolves to an object without any capability, even in production |
| FlagProvider.FeatureFlagsProvider.constructor | src/utils/featureFlags.ts:113-124 | the store starts with initialFlags when given and DEFAULT_FLAGS otherwise; with a window the storage then holds its JSON |
| FlagProvider.FeatureFlagsProvider.Persist | src/utils/featureFlags.ts:120-124 | with a window the stored text becomes the JSON of the flags; without one storage is untouched |
| FlagProvider.FeatureFlagsProvider.UseFeatureFlag | src/utils/featureFlags.ts:186-189 | the read is defined exactly when the name is a key of the record, and then it is that property's value |
| FlagProvider.FeatureFlagsProvider.WithFeatureFlag | src/utils/featureFlags.ts:170-183 | the wrapper renders nothing exactly when the flag is not true |
| FlagProvider.FeatureFlagsProvider.UpdateFlag | src/utils/featureFlags.ts:126-131 | the key reads the new value, every other key reads as before, the key list is kept when the key was present, and the stored JSON is the new record's |
| FlagProvider.FeatureFlagsProvider.EnableAllFlags | src/utils/featureFlags.ts:133-142 | every key of the record becomes true, no key is added or removed, a capability renders exactly when it was present, and the stored JSON follows |
| FlagProvider.FeatureFlagsProvider.DisableAllFlags | src/utils/featureFlags.ts:144-153 | every key becomes false, no key is added or removed, no wrapped component renders, and the stored JSON follows |
| FlagProvider.KeysTo | src/utils/featureFlags.ts:134-139 | the reduce over Object.keys builds every key, in order, mapped to the given value |
| FlagProvider.SetAllWellFormed | src/utils/featureFlags.ts:133-153 | the bulk updates keep keys distinct, plain and in order, so the record can still be persisted |
| ProgressiveDeployment.StagesCumulative | scripts/progressive-deployment.js:15-68 | there are four stages; the first turns on authentication, the status chart and the filters; each turns on a strict superset of the one before; the last turns on all twelve |
| ProgressiveDeployment.StagesDistinct | scripts/progressive-deployment.js:15-68 | no stage lists a capability twice |
| ProgressiveDeployment.StageFlagsLookup | scripts/progressive-deployment.js:19-66 | a stage's flags object has distinct keys and reads true exactly at the capabilities it lists |
| ProgressiveDeployment.TrueEntries | scripts/progressive-deployment.js:88-92 | the entries written are true ones taken from the stage, and every true entry is written |
| ProgressiveDeployment.RenderProdFlags | scripts/progressive-deployment.js:85-94 | the loop builds the head, the spread line, one `  key: true,` line per true entry in order, then `};` |
| ProgressiveDeployment.BlockValueOfRender | scripts/progressive-deployment.js:85-94 | the rendered block, read back, denotes DEFAULT_FLAGS with exactly the true entries laid over it |
| ProgressiveDeployment.StageBlockValue | scripts/progressive-deployment.js:85-97 | the block of any stage turns on exactly that stage's capabilities and leaves the others false; for stage 1 it is the current PROD_FLAGS |
| ProgressiveDeployment.MatchEnd | scripts/progressive-deployment.js:76 | a match starting at j is the head, a non-empty run of characters none of which is `}`, then `};` |
| ProgressiveDeployment.MatchEndOf | scripts/progressive-deployment.js:76 | conversely, the head, a non-empty run without `}` and then `};` is a match ending just after the `;` |
| ProgressiveDeployment.FirstMatch | scripts/progressive-deployment.js:77 | the match found is the leftmost one, and none is found only when no position matches |
| ProgressiveDeployment.ReplaceFirst | scripts/progressive-deployment.js:97 | replacement fails exactly when no position matches the pattern |
| ProgressiveDeployment.ReplaceKeepsRest | scripts/progressive-deployment.js:97 | only the leftmost match is replaced; the text before it and after its `};` is unchanged |
| ProgressiveDeployment.UpdateFeatureFlags | scripts/progressive-deployment.js:71-107 | the new file is the old one with the first PROD_FLAGS block replaced by the rendered stage, and nothing is written when the block is not found |
| ProgressiveDeployment.ApplyTwice | scripts/progressive-deployment.js:76-97 | the rendered block matches the pattern itself, so applying the same stage twice gives the file of one application |
| DeploymentCli.ParseInt | scripts/progressive-deployment.js:156 | parseInt gives a number exactly when, after white space and an optional sign, a decimal digit follows |
| DeploymentCli.ParseIntDecimal | scripts/progressive-deployment.js:156 | parseInt reads back the decimal writing of a number whatever non-digit text follows it |
| DeploymentCli.ParseMinus | scripts/progressive-deployment.js:156 | a leading minus negates the number parseInt reads |
| DeploymentCli.Decimal | scripts/progressive-deployment.js:180 | a number is written with decimal digits only and without a leading zero |
| DeploymentCli.IndexOf | scripts/progressive-deployment.js:154 | indexOf gives -1 exactly when the option is absent, and otherwise the first position holding it |
| DeploymentCli.SelectedStage | scripts/progressive-deployment.js:153-165 | a selected stage is a valid index, and none is selected without `--stage` |
| DeploymentCli.StageArgument | scripts/progressive-deployment.js:153-165 | whatever word follows the first `--stage`, the stage selected is the one its parseInt value numbers when that is 1 to 4, and none otherwise, so " 3", "+3", "3x" and "03" select stage 3 |
| DeploymentCli.StageOptionLast | scripts/progressive-deployment.js:154-165 | `--stage` as the last argument selects no stage |
| DeploymentCli.SelectStage | scripts/progressive-deployment.js:153-165 | `--stage n` selects stage n for every n from 1 to 4, wherever it stands among the other options |
| DeploymentCli.RejectStage | scripts/progressive-deployment.js:158-161 | a stage number 0 or above 4 is refused |
| DeploymentCli.ReadStageArgument | scripts/progressive-deployment.js:153-165 | the method's stage index is the one SelectedStage defines |
| DeploymentCli.Deploy | scripts/progressive-deployment.js:176-191 | with `--deploy` the version is `1.0.0-stage<n>` and the build runs; the publish runs only after a successful build; the exit code is 1 exactly when a started command fails |
| DeploymentCli.DeployStep | scripts/progressive-deployment.js:176-191 | the method's outcome is the one Deploy defines |
| DeploymentCli.NewFile | scripts/progressive-deployment.js:117-173 | the flags file changes only when neither help nor the listing is asked for and a valid stage is selected |
| DeploymentCli.Run | scripts/progressive-deployment.js:117-194 | help and listing exit 0 touching nothing; otherwise `--backup` copies the original file before the stage is checked; an invalid stage exits 1 and starts nothing; a valid stage whose file has no PROD_FLAGS block exits 1 with the file untouched; a rewrite without `--deploy` exits 0 with the rewritten file; the build starts only after the file is rewritten; exit 0 after a build means the publish ran and succeeded |
| DeploymentCli.RunScript | scripts/progressive-deployment.js:117-194 | main, step by step, gives the outcome Run defines |
| DeploymentCli.SelectAndApply | scripts/progressive-deployment.js:153-173 | the steps after the backup give the outcome Proceed defines |
| DeploymentCli.RunTwice | scripts/progressive-deployment.js:173 | running the script twice with the same arguments leaves the file the first run left |
| DashboardView.LoadersAgree | src/pages/Dashboard.tsx:41-59 | with a defined isEnabled both loaders mount the widget exactly when it is true; with undefined, DynamicComponent mounts it and LazyComponent shows the placeholder |
| DashboardView.SlotMounted | src/pages/MinimalDashboard.tsx:44-62 | a widget's slot is mounted when its flag is true, and for DynamicComponent also when it is missing |
| DashboardView.PanelMounted | src/pages/Dashboard.tsx:235-335 | a panel mounts a widget exactly when it belongs to the active tab and its loader mounts it |
| DashboardView.TabContents | src/pages/Dashboard.tsx:236-334 | general shows the status chart, the top exchanges and the timeline; geo shows the county map or the Bucharest map by geoTab; financiar and analiza-ai show one widget each; no two widgets share a flag |
| Dashboard.PageChrome | src/pages/Dashboard.tsx:68-106 | with authentication on and nobody signed in only the checking placeholder renders; the profile link needs both; the developer panel with the two bulk buttons is there exactly outside production (lines 339-383) |
| Dashboard.GuardedMounted | src/pages/Dashboard.tsx:159-182 | the filter panel and the export are mounted exactly when their flag is true |
| Dashboard.PageMounted | src/pages/Dashboard.tsx:68-334 | a widget is mounted exactly when the page is shown and it is a section whose flag is true or a widget of the active tab its loader mounts |
| Dashboard.MainMounted | src/pages/Dashboard.tsx:41-334 | as written, a tab's widget is mounted unless its flag is false, so a missing flag mounts it |
| Dashboard.CorrectedMainMounted | src/pages/Dashboard.tsx:68-334 | corrected, a widget is mounted exactly when the page is shown, the widget is on it and its flag is true |
| Dashboard.MissingFlagMountsWidget | src/pages/Dashboard.tsx:43 | a stored `{}` resolves to an object without flags; the page as written then mounts the status chart, and the corrected page does not |
| Dashboard.SlotsAgree | src/pages/Dashboard.tsx:43-52 | both loaders give the same slot when the widget's flag is present |
| Dashboard.CompleteFlagsRenderAlike | src/pages/Dashboard.tsx:43-52 | on an object holding every flag, as every table does, the page as written and the corrected page render the same |
| Dashboard.DisabledMountsNothing | src/pages/Dashboard.tsx:372-380 | after disabling every flag of a complete record the page is shown and mounts nothing |
| Dashboard.EnabledMountsTab | src/pages/Dashboard.tsx:363-371 | after enabling every flag of a complete record a signed-in user gets the filters, the export and every widget of the active tab, and nothing else |
| Dashboard.MainDashboard.constructor | src/pages/Dashboard.tsx:64-65 | the tab state starts at general and judete |
| Dashboard.MainDashboard.Click | src/pages/Dashboard.tsx:188-380 | a tab or geo button sets exactly its own state; a checkbox sets its key to the checked value and keeps the key list; the bulk buttons call a hook in their handler, which throws, so nothing changes |
| Dashboard.MainDashboard.ClickCorrected | src/pages/Dashboard.tsx:345-380 | with the bulk handlers using the functions taken at render, enable-all and disable-all set every key; after disable-all on a complete record nothing is mounted; after enable-all a signed-in user sees the sections and the tab's widgets |
| MinimalDashboard.MinimalChrome | src/pages/MinimalDashboard.tsx:304-327 | the page is always shown, has no profile link and no export; the developer panel has one checkbox per key and no bulk buttons, and is there exactly outside production |
| MinimalDashboard.MinimalMounted | src/pages/MinimalDashboard.tsx:131-299 | a widget is mounted exactly when it is the filter panel or in the active tab and its flag is true |
| MinimalDashboard.MinimalIsCorrectedMainLessExport | src/pages/MinimalDashboard.tsx:131-299 | the minimal page mounts what the corrected main page mounts for a signed-in user, less the export |
| MinimalDashboard.MinimalDashboard.constructor | src/pages/MinimalDashboard.tsx:33-34 | the tab state starts at general and judete |
| MinimalDashboard.MinimalDashboard.Click | src/pages/MinimalDashboard.tsx:150-319 | a tab or geo button sets exactly its own state; a checkbox calls a hook inside its change handler, which throws, so the flags stay as they were |
| MinimalDashboard.MinimalDashboard.ClickCorrected | src/pages/MinimalDashboard.tsx:310-324 | with the checkbox using the updateFlag taken at render, the key takes the checked value and the key list is kept; toggling enableFilters mounts the filter panel exactly when checked |

## Left out

- File-system failures are not modelled. The script reads, writes and copies files; a failing `readFileSync` or `writeFileSync` (exit 1 from the catch) or a failing `copyFileSync` is out of scope, because the file is a string parameter.
- Console output is not modelled: the help text, the stage listing, and the stage name and description printed before the rewrite. It decides nothing; only the exit code and the file are modelled.
- `process.exit` becomes the `exitCode` of an outcome value, because the model has no process to end.
- The environment variable `NEXT_PUBLIC_APP_VERSION` and the output of `execSync` are left out. The version is recorded in the outcome, and the two commands are reduced to success flags.
- React's machinery is left out: `React.lazy` and `Suspense` loading states, the error boundary around each page, and the remount caused by `LazyComponent` being redefined on every render. A widget is reduced to mounted or placeholder.
- Markup, styling, Helmet, the `new Date()` timestamp, the mock numbers and the user's e-mail in the profile link are display only.
- The authentication provider is reduced to whether a user is signed in.
- Dashboard.MainDashboard.Render: the developer panel of Dashboard.tsx calls `useFeatureFlags()` inside the `map` callback during render (line 346). The model treats this as working, because the call happens while rendering and the number of keys does not change between renders.
- Dashboard.MainDashboard.Render uses the corrected loader (see Findings). The as-written loader is stated by Dashboard.MainMounted.
- FlagJson.Parse reads only flat objects of booleans whose keys have no escapes. Any other text JSON.parse accepts is an oracle's answer, returned as `OtherJson`, because the program does not validate what it parsed.
- FlagJson.Parse and FeatureFlags.Assign keep keys in text and insertion order. A JavaScript object lists array-index keys such as `"0"` first, which no key of the program looks like.
- FlagProvider.FeatureFlagsProvider.constructor accepts only a flag object. A non-flat stored JSON value (`OtherJson`) cannot seed the store, because its content is not modelled.
- DeploymentCli.ParseInt returns the exact integer. JavaScript rounds values above 2^53 to a double, which can only affect numbers far outside 1..4, and those are rejected either way.
- ProgressiveDeployment.ReplaceFirst inserts the block literally. `String.prototype.replace` would expand `$` patterns, but the rendered block is built from fixed capability names and holds no `$`.
- `src/pages/_app.tsx` is not part of this model beyond its use of getInitialFlags to seed the store.
- `src/pages/index.tsx`, the Google Sheets service, the error-monitoring wrappers and the Sentry configuration are not part of this model. They are display, I/O, or code outside the flag system.

## Findings

| source | as written | input that shows it | evidently intended | confidence | as-written member | corrected member |
|---|---|---|---|---|---|---|
| src/pages/Dashboard.tsx:43 | `DynamicComponent` defaults `isEnabled` to true, so an undefined flag mounts the widget | stored record `{}` (getInitialFlags returns it without merging the defaults), signed-in user, general tab: the status chart is mounted though enableStatusChart is not on | a widget is mounted only when its flag is true, as `LazyComponent` in MinimalDashboard.tsx does | medium, not executed | Dashboard.MissingFlagMountsWidget | Dashboard.CorrectedMainMounted |
| src/pages/Dashboard.tsx:363-380 | the "Activează Tot" and "Dezactivează Tot" handlers call `useFeatureFlags()` inside onClick; a hook outside rendering throws, so the flags never change | any click on either button in development | call the enableAllFlags and disableAllFlags taken from the hook at render, as the checkboxes do with updateFlag | high, not executed | Dashboard.MainDashboard.Click | Dashboard.MainDashboard.ClickCorrected |
| src/pages/MinimalDashboard.tsx:316-319 | the checkbox's change handler calls `useFeatureFlags()` inside onChange; the hook throws, so no flag can be toggled | any change of a developer checkbox in development | take updateFlag from the hook at render and call it in the handler | high, not executed | MinimalDashboard.MinimalDashboard.Click | MinimalDashboard.MinimalDashboard.ClickCorrected |
