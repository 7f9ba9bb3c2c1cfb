# Universal Core: proofs about its protocols

A Dafny model of the parts of Universal Core where several things happen at once or
in an order nobody controls, and proofs of what those parts promise. Each subject is
modelled with the branches, limits and constants of its code; imperative code is a
class or a method proved against functions, and the promises are proved of those.

| files | subject |
|---|---|
| `AiProvider*.dfy` | saving and clearing the one AI-provider row under contention |
| `VoiceTake.dfy`, `VoiceNote.dfy` | the record-voice-note script and what its generation counters are for |
| `PeriodCount.dfy` | backfilling a denormalised counter while a worker keeps posting |
| `Sync*.dfy` | publishing definitions into a tenant, the dry run that predicts it, and doing it again |
| `TenantUrl*.dfy` | `/t/{slug}/` dispatch, switching, canonical redirects and the tenant stamp |
| `Inventory*.dfy` | reconciling demo stock with a declared table and with receipts |
| `ListView.dfy`, `ListViewWalks.dfy` | list-page options, links and the region pin |
| `Money.dfy`, `MoneyBackfill.dfy` | rounding to minor units and the two money backfills |
| `ConsoleLog.dfy` | the capped console buffer |
| `Attachment.dfy` | storage-path containment and generated keys |
| `Hub.dfy` | the hub layout in whole pixels |
| `Wrappers.dfy` | Option and Result |

`dafny verify dfyconfig.toml` checks everything.

## Where the code and its promises part

Following the code, these came out as exact conditions rather than as stated, each with
a case in which the promise fails:

- A save gives up only after eleven commits by others, not ten: the failed create
  before the ten attempts needs one too.
- The period-count tool's "already correct" verdict can be wrong for a counter that
  was ahead of its rows when listed; among postings it is right exactly when it was not.
  Its version check sees no hand edit of a schedule row: a migrated counter is off by
  exactly what such edits, made since the rows were counted, have changed.
- A dry run predicts the real run exactly when the binary defines no entity type at
  two versions.
- A sync can add a module after all, by publishing a draft that somebody else left at
  a wanted version; otherwise it never does. The next sync then publishes that module
  too: a second sync plans nothing, and completes a first one that was cut short,
  exactly when such a module brings nothing new.
- The landing page checks neither the tenant stamp nor the API token. Reached through
  a slug with a token and another tenant's development headers it shows that other
  tenant; and a rejected token beside a valid cookie is noticed only after the
  canonical redirect.
- An API client is promised a plain refusal, never the login page. With browser login
  configured a request with a good token and no cookie is sent there all the same, and
  with a cookie for another tenant it is served that one: the cookie check does not look
  at what the token check attached.
- A re-seed is not a no-op after a receipt at another declared facility: it takes that
  row back to its declared level.
- The region picker keeps the pin in the page's address, so text typed after choosing a
  region is read under the old one while the page is displayed under the new. It is read
  as displayed exactly when the page had no pin, or one for the region chosen.
- Converting an order and its lines keeps the order their sum, in whole cents, exactly
  when the lines left in the other unit than the order add up to nothing; without
  negative amounts, when they have none. By default a whole amount holds its record back:
  an order of 10.5 with lines of 10 and 0.5 comes apart, while one of 10 with lines of
  4 and 6 is left alone altogether.
- Stock rows agree with the posted receipt lines exactly as long as edits of those lines
  cancel out, because an edit credits nothing; the next seeding puts that right at the
  main facility only.

## Model

| member | source | states |
|---|---|---|
| AiProviderTheorems.RunRefinesRegister | internal/api/aiprovidersettings.go:204-318 | For every interleaving of saves and clears: at most one row exists, it is what one versioned cell holds after the successful writes in order, each write holds what its own form builds from nothing or from the very row it replaced, and a request that reports an id or a clear wrote exactly once, any other not at all |
| AiProviderTheorems.StoredRowIsSound | internal/api/aiprovidersettings.go:359-416 | In every reachable state the row is the untouched initial one, or it carries the marker, has no key under Ollama, and otherwise holds a key some save submitted for that same provider |
| AiProviderTheorems.KeyHistory | internal/api/aiprovidersettings.go:390-416 | Along any legal log the key on file was typed for the row's own provider or was there when the run began |
| AiProviderTheorems.BlankKeyCarriesForward | internal/api/aiprovidersettings.go:390-416 | A blank resubmission carries forward the key of exactly the row version its write replaced, and that row was for the same provider |
| AiProviderTheorems.GivingUpNeedsElevenRivals | internal/api/aiprovidersettings.go:256-318 | "Exceeded attempts" is reached only if eleven other requests committed: one before the failed create and one inside each of the ten list-to-write windows |
| AiProviderTheorems.ElevenRivalsSuffice | internal/api/aiprovidersettings.go:280-318 | That bound is exact: a schedule of twelve first-time saves in which one gives up |
| AiProviderTheorems.FirstSavesSucceed | internal/api/aiprovidersettings.go:204-318 | With no clear and at most ten other saves, a save that found no row and had its 22 calls returned an id, unless its own form was refused |
| AiProviderTheorems.EnoughTurnsFinish | internal/api/aiprovidersettings.go:280-318 | Wait-freedom: a request finishes within a fixed number of its own calls whatever the others do |
| AiProviderProofs.BuildFieldsRules | internal/api/aiprovidersettings.go:359-416 | Exactly which submissions the form accepts, and that what it stores is storable and is what was submitted, or for a blank key the one on file for the same provider |
| AiProviderProofs.RunKeepsInv | internal/api/aiprovidersettings.go:204-318 | The invariant of all requests, table and log holds after any schedule |
| AiProviderProofs.StepKeepsInv | internal/api/aiprovidersettings.go:204-318 | Each single database call of each request keeps the invariant |
| AiProviderHandler.Server.BuildAIProviderFields | internal/api/aiprovidersettings.go:359-416 | The field map filled step by step is the one the rules are proved of |
| AiProviderHandler.Server.CreateOrRecover | internal/api/aiprovidersettings.go:280-318 | The create-then-bounded-recovery loop, with any others running between its calls, takes exactly the steps of some schedule of the process model and returns what its process reports |
| AiProviderHandler.Server.AiProviderSettingsSave | internal/api/aiprovidersettings.go:204-247 | The save handler, under any interference, is a run of the process model ending in the outcome it returns |
| AiProviderHandler.Server.AiProviderSettingsClear | internal/api/aiprovidersettings.go:438-470 | The clear handler likewise |
| AiProviderHandler.Server.CreateRow | internal/kernel/crud/unique_constraints.go:162-219 | A create fails if a live row holds the marker, and otherwise adds a row under a fresh id at version 1 |
| AiProviderHandler.Server.UpdateRow | internal/data/records.go:1137-1180 | An update fails as not found on a gone id and as a conflict on a moved version, and otherwise advances the version by one |
| AiProviderHandler.Server.DeleteRow | internal/data/records.go:1187-1215 | A delete removes the row under the id, or reports it gone |
| VoiceTake.PageFollowsHistory | internal/api/issuereport.go:917-1038 | For every order of events the transcript and description are what plain history calls for: only the take that started last writes, and its answer is written however many later clicks were refused or broke |
| VoiceTake.OneTakeAtATime | internal/api/issuereport.go:800-862 | In every run at most one permission prompt is open and at most one recorder runs, never both, and the status line was written by the latest Record click |
| VoiceTake.SupersededTakesStaySilent | internal/api/issuereport.go:986-1047 | Once a later take has started, an earlier one neither sends its request nor writes transcript, description or status |
| VoiceTake.NewestTakeIsHeard | internal/api/issuereport.go:981-1026 | The newest take, once stopped, has its request out and uncancelled, and its answer when it comes is written, cut to the length limit |
| VoiceTake.NewestMoves | internal/api/issuereport.go:1049-1075 | Only a successful start changes which take is the newest |
| VoiceNote.ScriptFollowsHistory | internal/api/issuereport.go:800-1087 | The script's two counters, recorder identity, abort handle and flags show exactly what history calls for; a take's signal is aborted exactly when a later take started; the Stop label shows exactly while recording; an active recorder is the one it is for; stop() and abort() always have a real target |
| VoiceNote.CallbackFits | internal/api/issuereport.go:800-1087 | Each callback does to the visible page what the corresponding event means in history |
| VoiceNote.StartFits | internal/api/issuereport.go:1049-1077 | A start makes its take the newest and aborts the one it supersedes |
| VoiceNote.StopEventFits | internal/api/issuereport.go:917-981 | An old recorder's stop event never resets a newer take's button, and an aborted request is not sent |
| VoiceNote.AnswerFits | internal/api/issuereport.go:986-1037 | The recording generation decides whether the text is written, the attempt generation whether the status line is |
| VoiceNote.VoiceNote.OnClick | internal/api/issuereport.go:800-861 | The click handler updates the script as its callback is specified; it stops a recorder only while that is active |
| VoiceNote.VoiceNote.OnMicGranted | internal/api/issuereport.go:862-1081 | The permission callback, with both ways the recorder can fail to start |
| VoiceNote.VoiceNote.OnMicRejected | internal/api/issuereport.go:1082-1085 | A refused permission frees the button and writes the status line |
| VoiceNote.VoiceNote.OnStop | internal/api/issuereport.go:917-981 | The stop callback: recorder identity for the button, attempt generation for the status line, signal for the request |
| VoiceNote.VoiceNote.OnAnswered | internal/api/issuereport.go:986-1038 | The answer callback: clamps, appends to the trimmed description, clamps again, all guarded by the recording generation |
| VoiceNote.VoiceNote.OnTranscribeError | internal/api/issuereport.go:1039-1047 | An error or cancellation writes the status line only for the latest click |
| PeriodCount.Tenant.Backfill | cmd/backfill-fixedasset-posted-period-count/main.go:116-174 | For every tenant and whatever the worker, editors and saves of the counter do in between: of an asset nobody saves or edits the rows of, migrated means exactly right and staying so, otherwise it keeps its distance to its rows, and reported correct means exact unless the counter was ahead when listed; of any other it says by how much it is off; no posting or edit is lost, a dry run writes nothing, only a moved version is reported as such, and with no one else about every asset that validates ends exact |
| PeriodCount.Tenant.BackfillOne | cmd/backfill-fixedasset-posted-period-count/main.go:122-174 | One asset's turn, with others running between listing, recount and update: each verdict is given exactly when its test says so, and the run's progress is kept |
| PeriodCount.Tenant.Recount | cmd/backfill-fixedasset-posted-period-count/main.go:123-132 | The inner loop counts exactly the rows with a posting date |
| PeriodCount.Tenant.UpdateAsset | cmd/backfill-fixedasset-posted-period-count/main.go:153-173 | The versioned write replaces the record or leaves it alone |
| PeriodCount.ApplyAllEffect | internal/kernel/assets/ledger.go:790-838 | Short of a save of the asset or a hand edit of its rows, nobody but the tool changes how far a counter is behind its rows, and while the version stands still none is posted |
| PeriodCount.ApplyAllVersion | internal/kernel/assets/ledger.go:812-838 | An unmoved version means the asset was neither changed nor saved |
| PeriodCount.ApplyAllApart | internal/kernel/assets/ledger.go:801-815 | What others do keeps the tool's counter as far from what it would have been without the tool, until a save makes them the same |
| PeriodCount.WriteIsExact | cmd/backfill-fixedasset-posted-period-count/main.go:141-173 | A write of the recount over an unmoved version leaves the counter off by exactly what has changed its distance to its rows since they were counted, which is nothing unless a row was edited by hand, and every other field and asset as the others left them |
| PeriodCount.MigratedIsExactExactlyWhen | cmd/backfill-fixedasset-posted-period-count/main.go:141-173 | A migrated counter ends exact exactly when the last save since the count left it so, or without one, when nothing has changed its distance to its rows since |
| PeriodCount.EditGoesUnnoticed | internal/kernel/assets/ledger.go:801-807 | A row un-posted by hand between count and write moves no version, and the counter ends one ahead |
| PeriodCount.SettledVerdictIsRightExactlyWhen | cmd/backfill-fixedasset-posted-period-count/main.go:133-137 | "Already correct" is right for every interleaving of postings and edits of other fields exactly when the listed counter was not ahead of its rows |
| PeriodCount.WronglyPassed | cmd/backfill-fixedasset-posted-period-count/main.go:133-137 | A counter one ahead that a posting catches up with before the count is passed as correct and stays one ahead |
| PeriodCount.OthersKeepProgress | internal/kernel/assets/ledger.go:790-838 | What others do keeps what the run has achieved so far |
| SyncTenant.Tenant.Sync | cmd/sync-tenant-modules/main.go:310-442 | One tenant's sync: without foundation nothing happens; a dry run writes nothing and lists exactly what is planned; a real run publishes foundation and then the modules present until one fails, and lists exactly what moved and what is stuck, for every map iteration order |
| SyncTenant.SyncGrantsNoModule | cmd/sync-tenant-modules/main.go:333-361 | No run, wherever it stops, adds or loses a module exactly when no draft at a wanted version was left by a module the tenant lacks |
| SyncAgain.RepeatedSyncCompletesTheFirstExactlyWhen | cmd/sync-tenant-modules/main.go:310-442 | A sync cut short anywhere and then repeated to completion, from the modules it reads then, reaches the registry one complete sync would have reached, exactly when no module it may add brings a version that it neither wants nor finds settled |
| SyncAgain.SecondSyncIsQuietExactlyWhen | cmd/sync-tenant-modules/main.go:310-442 | After a complete sync another, which reads the modules anew, plans nothing exactly when every definition of a known module that the first added was of a type it wanted too or was published or rolled back already |
| SyncAgain.SecondSyncIsStuckAgain | cmd/sync-tenant-modules/main.go:698-715 | Where the first sync was stuck the second is, and elsewhere only at types of a module the first added |
| SyncAgain.NothingGainedNothingNew | cmd/sync-tenant-modules/main.go:607-618 | If no draft at a wanted version was left by a module the tenant lacks, a second sync plans nothing and reports the same as blocked |
| SyncAgain.ModulesAfter | internal/data/definitions.go:412-450 | The modules read off the registry after a complete sync are those before and those of the foreign drafts it published |
| SyncAgain.ForeignDraftAddsAModule | cmd/sync-tenant-modules/main.go:333-361 | A registry on which this fails: a draft of a foundation type left under another module gives the tenant that module, and the next sync has its definition to publish |
| SyncPlanner.DryRunTellsTheTruth | cmd/sync-tenant-modules/main.go:631-715 | A dry run's two lists are, as sequences, those of the complete run |
| SyncPlanner.PlanPredictsExactlyWhen | cmd/sync-tenant-modules/main.go:644-682 | The plan is right for every registry exactly when the binary defines no type at two versions |
| SyncPlanner.UnplannedChange | cmd/sync-tenant-modules/main.go:671-682 | With a type at two versions, the later rolled back, nothing is planned and the run publishes the earlier |
| SyncPlanner.ListsIsUnique | cmd/sync-tenant-modules/main.go:717-723 | There is only one sorted listing of distinct lines, so map order cannot show |
| SyncPlanner.SortByType | cmd/sync-tenant-modules/main.go:789-795 | The in-place insertion sort yields a sorted permutation and keeps keys distinct |
| SyncPlanner.CurrentAfter | cmd/sync-tenant-modules/main.go:591-605 | The current version of a type after publishing is the wanted one where that is ahead and not rolled back, and otherwise the old one |
| SyncPlanner.LessTotal | cmd/sync-tenant-modules/main.go:717-723 | The string order is total and strict |
| SyncTenant.DiffVersions | cmd/sync-tenant-modules/main.go:607-618 | The listed changes are exactly the types that moved or appeared, sorted |
| SyncTenant.PlannedChanges | cmd/sync-tenant-modules/main.go:644-668 | The planned changes and the blocked types are exactly those behind and not rolled back, and behind and rolled back |
| SyncTenant.BlockedAfterPublish | cmd/sync-tenant-modules/main.go:698-715 | The blocked types after publishing are exactly those still behind at a rolled-back version |
| SyncTenant.WantedVersions | cmd/sync-tenant-modules/main.go:671-682 | The wanted version of a type is its last definition's |
| SyncTenant.Tenant.PublishDefinition | internal/kernel/moduleseed/moduleseed.go:69-94 | Draft, approve, publish from wherever the version stands, call by call |
| SyncTenant.Tenant.PublishDefinitions | internal/kernel/moduleseed/moduleseed.go:60-67 | In order, stopping at the first failure |
| SyncTenant.Tenant.PublishPresent | cmd/sync-tenant-modules/main.go:405-427 | Foundation, then each optional module's entities, forms and status graph until a failure |
| SyncTenant.Tenant.PublishedVersions | cmd/sync-tenant-modules/main.go:591-605 | Per type the highest published version |
| SyncRegistry.PublishModulesAdvances | internal/kernel/moduleseed/moduleseed.go:48-94 | Wherever publishing stops, what is left to do leads to the same registry; published and rolled-back versions are left alone |
| SyncRegistry.AdvanceRowByRow | internal/kernel/moduleseed/moduleseed.go:69-94 | What a complete run leaves, row by row |
| SyncRegistry.RunGrantsNoModule | internal/data/definitions.go:412-450 | The module set read off the registry is unchanged by every run exactly when no foreign draft sits at a wanted version |
| SyncRegistry.ResumedRunReachesTheSame | internal/kernel/moduleseed/moduleseed.go:48-94 | A partial run followed by a complete one equals one complete run |
| SyncRegistry.EnoughCallsComplete | internal/kernel/moduleseed/moduleseed.go:60-94 | A run whose calls are answered completes |
| TenantUrlTheorems.ServedExactlyWhen | internal/api/tenanturl.go:65-190 | A guarded route runs for a tenant exactly when the request resolves to it, every slug in the URL is its slug, the page stamp if any names it, and no canonical redirect is due |
| TenantUrlTheorems.UrlNamesTheTenantExactlyWhen | internal/api/tenanturl.go:100-127 | What is shown under a slug is that tenant's, except exactly a landing page reached by an API token that also carries another tenant's development headers |
| TenantUrlTheorems.RootServedExactlyWhen | internal/api/dashboard.go:28-63 | When the landing page shows a tenant's dashboard: it looks at the cookie, then at development headers, not at the token |
| TenantUrlTheorems.LandingPageIgnoresTheStamp | internal/api/dashboard.go:28-52 | The landing page is the route on which the page stamp is not checked |
| TenantUrlTheorems.Peel | internal/api/tenanturl.go:100-127 | Nested prefixes are stripped one by one, and nothing is served unless all of them agree with the request's tenant |
| TenantUrlTheorems.CanonicalServesThePage | internal/api/tenanturl.go:157-172 | The canonical redirect leads to the same page of the same tenant and no further |
| TenantUrlTheorems.RedirectsEnd | internal/api/tenanturl.go:128-146 | However the switch cookie fares a browser is redirected at most twice: once to canonicalize, or once for a slash and once to switch in either order |
| TenantUrlTheorems.PrefixThenStrip | internal/api/tenanturl.go:101-112 | Stripping undoes prefixing |
| TenantUrlTheorems.RedirectShapes | internal/api/tenanturl.go:128-144 | Where each kind of redirect comes from and leads to |
| TenantUrlReach.BeyondReachIsInvisible | internal/api/tenanturl.go:75-99 | Every sequence of requests is answered alike over two directories that agree on the tenants the requester can reach |
| TenantUrlReach.InaccessibleLooksUnknown | internal/api/tenanturl.go:86-99 | A slug of an inaccessible tenant and a slug of none are answered alike, on every method |
| TenantUrlReach.ForeignSlugIsRefused | internal/api/tenanturl.go:86-146 | A slug that is not the requester's own, unknown or not, is not found on a read and a conflict on a write, unless the read may switch to it |
| TenantUrlReach.SwitchShape | internal/webauth/choose.go:191-211 | An automatic switch is to an accessible tenant that some slug on the way names and that is not yet the active one |
| TenantUrlReach.SwitchLands | internal/api/tenanturl.go:128-144 | After the switch dispatch goes on below the slug; if the cookie did not come back the answer is not found rather than another switch |
| TenantUrlLogin.SentToLoginExactlyWhen | internal/webauth/bridge.go:23-41 | A request is sent to log in or to choose a tenant exactly when it meets the auth chain, under a slug or not, with no token or a good one, and browser login finds no session |
| TenantUrlLogin.TokenIsNeverRedirectedExactlyWhen | internal/svcauth/svcauth.go:142-147 | A request that carries a token is answered without a login redirect exactly when the token is bad, browser login is not configured, or there is a session as well |
| TenantUrlLogin.TokenActsForItsTenantExactlyWhen | internal/webauth/bridge.go:27-40 | What is served to a token is its tenant's exactly when browser login is not configured or the cookie names the same tenant; on the landing page, when the cookie does, or without one the development headers |
| TenantUrlLogin.TokenIsSentToLogin | internal/webauth/bridge.go:27-40 | A good token without a cookie gets the login page |
| TenantUrlLogin.TokenIsSentToLoginUnderItsSlug | internal/webauth/bridge.go:27-40 | And so under its own tenant's slug |
| TenantUrlLogin.TokenIsOverruled | internal/webauth/bridge.go:27-40 | A token for one tenant beside a cookie for another is served the cookie's |
| TenantUrlLogin.SlugShowsAnotherTenant | internal/api/dashboard.go:28-63 | One tenant's landing page, asked for with its token and another's development headers, shows the other tenant |
| TenantUrlLogin.StampIsNotChecked | internal/api/dashboard.go:28-52 | A landing page stamped for one tenant is served for another |
| TenantUrlLogin.RejectedTokenIsNoticedLate | internal/api/dashboard.go:28-52 | A rejected token beside a valid cookie gets the canonical redirect first and is refused there |
| InventorySeeder.Seeder.Converge | cmd/seed-demo-data/main.go:858-935 | The loop over listed rows, the loose rows and the wants leaves exactly the converged rows, with ids drawn in order |
| InventorySeeder.Seeder.SeedInventory | cmd/seed-demo-data/main.go:811-955 | The whole pass, for every order of items: each item with a table converges on its levels with what was received folded in, all else stays, and it completes exactly when every receipt and facility it needs can be read |
| InventorySeeder.ReceivedQtyBySku | cmd/seed-demo-data/main.go:748-791 | The sums computed with one cached lookup per receipt are the plain sums over all lines |
| InventorySeeder.Sift | cmd/seed-demo-data/main.go:892-901 | The listed rows are split into the oldest at each declared facility and the loose rest |
| InventorySeeder.PostingAdds | cmd/seed-demo-data/main.go:765-789 | A new line adds to its own item's sum at its receipt's facility only |
| InventoryTheorems.DeclaredLevelsHold | cmd/seed-demo-data/main.go:919-935 | Afterwards the oldest row at each declared facility has exactly the declared levels |
| InventoryTheorems.NoRowIsLost | cmd/seed-demo-data/main.go:903-935 | No row is lost or changes its id |
| InventoryTheorems.CreatesWhatIsMissing | cmd/seed-demo-data/main.go:919-935 | Creates are the uncovered facilities minus the loose rows, or none |
| InventoryTheorems.SecondRunWritesNothing | cmd/seed-demo-data/main.go:903-917 | A second run writes nothing, not even a version |
| InventoryTheorems.TotalsAreConserved | cmd/seed-demo-data/main.go:892-955 | Totals are what is declared plus what rows without a place hold |
| InventoryTheorems.TotalsAreDeclared | cmd/seed-demo-data/main.go:892-955 | With no more rows than facilities totals are exactly the declared ones |
| InventoryTheorems.LeftOverExactlyWhen | cmd/seed-demo-data/main.go:936-954 | Which rows keep out of the table: the loose ones beyond those that were needed |
| InventoryTheorems.OrderOnlyNamesNewRows | cmd/seed-demo-data/main.go:828-955 | The order of items only decides the ids of new rows |
| Inventory.MetStep | cmd/seed-demo-data/main.go:919-935 | One want changes one row or adds one |
| Inventory.TargetsDiffer | cmd/seed-demo-data/main.go:919-935 | No two wants go to the same row |
| InventoryLedger.RunKeepsReceived | cmd/seed-demo-data/main.go:814-890 | However receipts, posted lines, edits of them and seedings interleave, complete or cut short, the row at each declared facility holds its declared level, what the last seeding folded in, and what was credited since |
| InventoryLedger.SumsMove | internal/kernel/purchasing/ledger.go:107-135 | What the posted lines add up to moves by the credits and by later edits of lines, which credit nothing |
| InventoryLedger.RowAgreesWithLinesExactlyWhen | internal/kernel/purchasing/ledger.go:107-135 | So a declared row agrees with the posted lines exactly when the edits of them since the last seeding cancel out |
| InventoryLedger.CorrectionIsNotCredited | internal/kernel/purchasing/ledger.go:107-135 | A line corrected from five to two leaves the stock at five |
| InventoryLedger.SeederReseeds | cmd/seed-demo-data/main.go:811-955 | Whatever a call of the seeder does is a move of those runs, and of every item if it completes |
| InventoryLedger.ReseedIsQuietExactlyWhen | cmd/seed-demo-data/main.go:903-917 | Seeding again writes nothing to an item exactly when since it was last seeded nothing of it was posted at another declared facility, and at the main one what it holds is what would be folded in |
| InventoryLedger.MainSettlesExactlyWhen | cmd/seed-demo-data/main.go:870-890 | Which for sums that are not negative means that no edit has moved the sum of its lines there |
| InventoryReceipts.CreditHolds | internal/kernel/purchasing/ledger.go:336-457 | A receipt credits the oldest row at its facility by its quantity and no other declared row |
| InventoryLedger.FiveAreTakenBack | cmd/seed-demo-data/main.go:870-890 | A run that ends in five received at a facility other than the main one, which the next seeding takes back |
| InventoryLedger.NothingReceivedExactlyWhen | internal/kernel/purchasing/ledger.go:201-205 | Nothing is credited at a facility exactly while no positive quantity is posted there |
| ConsoleLog.BufferIsLongestSuffix | internal/api/layout.go:226-265 | After any run, from any storage, each tenant's buffer is the longest suffix of that tenant's own cut history that keeps both limits, or what was found there and never touched |
| ConsoleLog.NewestIsKept | internal/api/layout.go:250-260 | Whatever was stored, an accepted entry is the last one in a buffer within both limits |
| ConsoleLog.TrimIsLongest | internal/api/layout.go:254-259 | Dropping the oldest stops at the longest fitting suffix, and the guard for the last entry never leaves one too long |
| ConsoleLog.Page.AppendLog | internal/api/layout.go:228-265 | The append with its two loops computes that buffer for its own tenant's key and touches no other |
| MoneyBackfill.Table.Run | internal/kernel/recordmigrate/recordmigrate.go:118-179 | One run over the table converts exactly the rows up to the first refused write; a dry run writes nothing and its tally is the real run's |
| MoneyBackfill.DefaultRunIsIdempotent | cmd/backfill-poline-money/main.go:94-112 | By default a second run changes nothing in either table |
| MoneyBackfill.RepeatedRunCompletesTheFirst | internal/kernel/recordmigrate/recordmigrate.go:136-178 | A run cut short and then repeated equals one complete run |
| MoneyBackfill.LineIsAllOrNothing | cmd/backfill-poline-money/main.go:161-202 | A line is converted in every amount it has, exactly, or not touched; nothing else on it changes |
| MoneyBackfill.LineAgain | cmd/backfill-poline-money/main.go:94-112 | Converting a converted line again happens exactly when whole numbers are forced and an amount is not zero |
| MoneyBackfill.OrderIsConverted | cmd/backfill-purchase-order-total/main.go:112-143 | An order is converted exactly or not touched |
| MoneyBackfill.OrderAgain | cmd/backfill-purchase-order-total/main.go:112-143 | The same for an order's total |
| MoneyBackfill.LineConvertedExactlyWhen | cmd/backfill-poline-money/main.go:161-202 | A line is in minor units after a run exactly when the run did not count it as skipped |
| MoneyBackfill.OrderConvertedExactlyWhen | cmd/backfill-purchase-order-total/main.go:112-143 | The same for an order |
| MoneyBackfill.DriftIsWhatIsApart | cmd/backfill-poline-money/main.go:151-202 | An order that was the sum of its lines ends as far from them as the records left in the other unit take them apart, ninety-nine times their sum, to within half a minor unit for each record converted, and exactly where amounts are in cents |
| MoneyBackfill.OrderAddsUpExactlyWhen | cmd/backfill-poline-money/main.go:151-202 | So in cents it still is their sum exactly when the lines held back under a converted order, or converted under one held back, add up to nothing |
| MoneyBackfill.OrderAddsUpWhenAllAgree | cmd/backfill-poline-money/main.go:151-202 | And with no negative amount, exactly when every line with an amount was held back if the order was and converted if it was |
| MoneyBackfill.OrderStillAddsUp | cmd/backfill-poline-money/main.go:151-202 | For any amounts, if no record was held back it still is, to within (n + 1) / 2 minor units and exactly for one line |
| MoneyBackfill.MixedOrderComesApart | cmd/backfill-poline-money/main.go:94-112 | An order of 10.5 with lines of 10 and 0.5 comes apart: by default its whole line is held back |
| MoneyBackfill.WholeOrderIsLeftAlone | cmd/backfill-poline-money/main.go:94-112 | One of 10 with lines of 4 and 6 is held back with its lines and stays their sum |
| Money.RoundIsNearest | internal/kernel/ledger/money.go:24-26 | Rounding takes the nearest minor unit, halves away from zero |
| Money.SumDrift | internal/kernel/ledger/money.go:24-26 | Converting a total and converting its n parts differ by at most (n + 1) / 2 minor units |
| Money.PlannedMinor | internal/api/project_budget_report.go:200-223 | Scaling each matching line and summing is the sum of the rounded parts, within that bound of scaling the sum |
| Attachment.AcceptedExactlyWhen | internal/api/attachment.go:313-321 | A path is accepted for a tenant exactly when it spells out a name below the tenant's directory with no empty, "." or ".." segment |
| Attachment.AcceptedStaysInside | internal/api/attachment.go:313-321 | Evaluated below any storage root, an accepted path leads into the tenant's own directory |
| Attachment.NoPathIsShared | internal/api/attachment.go:313-321 | No path is accepted for two tenants |
| Attachment.KeyBelongsToItsTenantOnly | internal/api/attachment.go:331-337 | Every generated key is in clean form, accepted for its tenant and for no other, for every file name |
| Attachment.Sanitize | internal/api/attachment.go:354-367 | The last segment is a plain name within the length limit whatever the client sent |
| Attachment.KeptExactlyWhen | internal/api/attachment.go:354-367 | A file name is kept as it is exactly when it is already plain, short and untrimmed |
| Hub.LayoutNodes | internal/api/dashboard.go:361-384 | For every number of entries, in whole pixels: no two circles overlap, none overlaps the centre, all lie inside the container, in order |
| Hub.Geometry | internal/api/dashboard.go:459-476 | Neighbours are more than the node size plus twelve pixels apart, one pixel of radius more would give them the whole gap and any radius above 180 falls short of it, and forty pixels are left around the outermost circles |
| Hub.RadiusSuffices | internal/api/dashboard.go:470-473 | The truncated radius still leaves neighbours more than the node size plus twelve pixels apart |
| Hub.PixelsApart | internal/api/dashboard.go:377-378 | Truncating both points costs less than twelve pixels of distance |
| Hub.ScaledApart | internal/api/dashboard.go:366-378 | Directions a chord apart stay a chord apart when scaled |
| ListView.Render | internal/api/listview.go:102-404 | The page: rows, page number, Next, Previous, Clear and header links, form fields and stored region |
| ListViewWalks.NextEnumeratesTheList | internal/api/listview.go:212-229 | Next from the first page to the last shows the filtered, sorted list once and in order, whatever the region cookie does in between |
| ListViewWalks.NextGoesOn | internal/api/listview.go:359-372 | There is one such page for every 25 rows |
| ListViewWalks.WalkKeepsRegion | internal/api/listview.go:299-358 | Along any walk of links and form submits the filter text is read under the same region, and no step stores a region |
| ListViewWalks.PinnedKeepsRegion | internal/api/locale.go:195-201 | An offered pin governs whatever the cookie says, and is never stored |
| ListViewWalks.PageLinkKeepsOptions | internal/api/listview.go:338-372 | A page link changes the page and nothing else |
| ListViewWalks.HeaderSortsAndKeepsFilter | internal/api/listview.go:373-404 | A header sorts by its column, flips the direction if it sorted already, and keeps the filter |
| ListViewWalks.ClearKeepsSort | internal/api/listview.go:309-321 | Clear drops the filter and keeps the sort |
| ListViewWalks.SubmitKeepsSortAndColumn | internal/api/listview.go:194-210 | A search keeps sort and column and reads its text under the pin |
| ListViewWalks.PageNumberRoundTrips | internal/api/listview.go:221-227 | A page number survives being written into a link and read back |
| ListView.ClampPage | internal/api/listview.go:217-227 | There are as few pages as hold all rows and at least one, and the page shown is the one that exists nearest to the one asked for |
| ListView.RegionOptions | internal/api/locale.go:203-222 | The region picker offers nothing for a single region and otherwise for each the query as it is, pin included, without the filter text |
| ListViewWalks.PickedRegionIsReadExactlyWhen | internal/api/locale.go:203-222 | After choosing a region the page is displayed under it, it is the one stored and the text is gone; what is typed next is read under it exactly when the page had no offered pin or the pin is the region chosen |
| ListViewWalks.PickerKeepsReading | internal/api/locale.go:203-222 | On every page reached by the list's own links, a search typed after choosing a region is still read under the region the walk began with |
| ListViewWalks.WrongDayIsFound | internal/api/listview.go:60-77 | A page displayed under one region finds the other region's day for the date typed into it |
| ListViewWalks.WrongDayClicks | internal/api/locale.go:203-222 | Three clicks from the bare list to that page |
| ListView.FindUsable | internal/api/listview.go:130-135 | The default filter column is the first that can be filtered |

## Left out

Assumptions about code the modelled parts rely on:

- The kernel's storage calls are atomic steps: create fails while a live row holds the
  unique marker, update is checked against the version, delete and update report a gone
  id, ids are fresh. The unique-key table behind them is not modelled.
- Encryption is opaque: a ciphertext is a value tagged with what it hides and with the
  request that made it. URL parsing arrives as its verdict (scheme, host, link-local).
- A database failure in the middle of a save or clear is not modelled; the AI-provider
  calls either succeed or report one of the modelled conflicts.
- Definitions carry their own module's key, and published definitions without a key
  are ignored, as the registry query does.
- Records in a list are ordered by the requested field and then by id, so a page query
  on fixed data is deterministic; the query itself is one function of the options, which
  includes resolving a reference filter's text to ids.
- Locale parsing gives each offered region one canonical tag that is itself offered.
- Slugs are non-empty and hold no slash; slug and tenant id determine each other.

Simplifications:

- Record identity inside one item's stock rows is their position, since a listing is by
  creation order and rows are never deleted; ids are carried along and shown unchanged.
- Money and quantities are exact decimals, not floating point; a conversion beyond the
  range of a 64-bit integer is modelled only where the code checks for it.
- Strings are sequences of characters of one code unit; white space is ASCII white space.
- PeriodCount: deleting assets, and a validator that looks at the counter, are not
  modelled; a save of an asset by others is never refused.
- The worker's posting is one step; its own scheduling and journal entries are left out.
- Reads that fail while a sync reports (as opposed to while it publishes) are not
  modelled; nor are the data-migration warnings that follow the two lists.
- The re-dispatched clone of a request and the re-sealed session are new values; nothing
  else holds a reference to the old ones.
- Request paths are already clean and unescaped; the mux's own cleaning redirect and
  percent-encoded segments are left out. A browser repeats its method on a redirect, a
  HEAD of the landing page counts as any other route, and sealing a session succeeds.
- In the voice note the audio itself, the upload form and track shutdown are left out;
  the browser may deliver any enabled event at any time.
- A goods receipt keeps its facility, and posted lines are not deleted; the credit they
  make is one step, without the retries of its versioned write.
- SyncAgain.RepeatedSyncCompletesTheFirstExactlyWhen: takes a binary in which no two
  modules define the same version of a type, because otherwise the home of a new row
  depends on which of them comes first; the quiet second sync takes one that defines no
  type at two versions, because otherwise no plan is right.
- Inventory: a rejected write ends the original's run at once; here writes succeed, and
  only unreadable receipts and unseeded facilities end it.

Parts of the repository without a model, because they would add only easy members or
foreign calls: member administration, the other seeders and backfills, the purchase-order
total accumulation, tenant provisioning and installation commands, CSV and SQL import,
templates and translations, the help viewer, OIDC and AI clients, blob storage, screen
recording and the quick-create dialog.
