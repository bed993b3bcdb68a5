# Verification of the neops deployment CLI

The CLI turns an operator's `.env` into a running deployment. This project models it in two halves and proves properties
of the model.

**A validated configuration compiler.** `Urls`, `Scenarios`, `PublicUrls` and `Rules` read the `.env`, the overlay list,
the URLs and the ports, `Settings` the secrets and other single keys, and report problems; every reporting loop is
proved to report exactly the problems of a predicate, and `Acceptance` that none is reported exactly in the sound
configurations. `UrlText` is the grammar of the URLs. `Traefik` compiles an accepted configuration into routers and
entrypoints, and says how Traefik serves a request: the matching router of the highest priority. `DenyPattern` holds the
deny rule's regular expression. `Routing` and `EndToEnd` prove that the compiled routers refine a simple owner function
(deny, core prefix, the service whose URL contains the path by segment, the web client), from the public port to the
path the service is handed. `Serving` adds TLS, redirects and the paths handed over. `RoutingExamples` are concrete
accepted configurations on which a condition of those theorems fails.

**Step protocols that tolerate crashes and failures.** `EnvFile` and `Migration0003` model the `.env` as lines, its
in-place edits as single file writes, and the migration as a trace of those writes; `EnvLines` and `MigratedFile` say
what becomes of its lines, `Retention` of the log retention; `Migrate` is the runner over any list of migrations, with
an adversary that raises or kills at any write; `Ledger` is that run seen from outside; `Releases` puts the shipped
migrations under it. `Tokens` is the engine-token protocol, `GeneratedTree` the maintenance of `generated/`,
`SearchIndex` the order of start, index rebuild and record.

**The end-to-end suite's oracles.** `Burst` (the paced emitter and the line windows of an outage), `DropOrder` (the
verdict on which end a buffer lost, against two buffer policies), `Outages` (both together), `Accounting` (stored lines
against their numbering), `Schema` (the JSON-schema subset checker) and `Keywords` (its keywords one by one).

Objects and loops of the source are classes and methods proved against specification functions; the lemmas are about
those functions. Outside calls that may fail (compose, the CMS, a process kill) are parameters that say how each call
ends, quantified over in the theorems.

## Where the code falls short of its rule

These are proved with the exact condition under which the code does meet the rule.

- Traefik matches a path prefix as text, validation compares by segment. A validated layout routes a request to its
  owner if and only if no rule claims the path in the middle of a segment and nothing of higher rank owns it
  (`Routing.RoutingRefinesOwner`); under one service's URL that is a property of the configuration alone
  (`EndToEnd.OverreachedIsShadowed`). `RoutingExamples.EngineUnderAdministrator` is an accepted `.env` on which it fails.
- Validation compares only URLs that carry a path, and by segment. The winner of every request is unique if and only if
  no service without a path shares a host with another and no service's path continues another's in the middle of a
  segment on one host, unless a core prefix claims the longer one (`EndToEnd.WinnersUniqueIff`). Two services own one
  request exactly in the first case (`EndToEnd.TiesIffNotSeparated`). `RoutingExamples.OneHostForTwoServices` and
  `RoutingExamples.OnePrefixInsideAnother` are accepted `.env` files, one for each way to tie.
- `BurstOutcome.due_by` is documented as an upper bound on the lines out by an instant. It is one at every instant if
  and only if the start was not read late or nothing was sent (`Burst.DueByBoundsIff`); the driver reads it late
  (`Burst.DueByUndercounts`).
- `oldest_dropped` rejects a buffer that drops its oldest lines when it overflows again past a line it has pushed, and
  only then (`DropOrder.DropOldestIsAcceptedIff`, with the run of `DropOrder.LateDropIsRejected`).
- `oldest_dropped` alone accepts some buffers that refuse new lines: of those that overflowed during the fault, none that
  had stored a line of the window before the first it refused, and every other that later has room and resumes
  (`DropOrder.RefuseNewestHalf`, `DropOrder.FullRefuserPassesHalf`). Together with `newest_kept` it accepts exactly
  those that lost nothing (`DropOrder.RefuseNewestIsRejected`).
- `missing` counts the absent numbers if and only if no number is negative, and is too small otherwise
  (`Accounting.MissingCountsAbsentIff`); `Accounting.NegativeHidesHole` is a hole it misses.
- The overlay step of migration 0003 settles, for a one-character separator, if and only if it had nothing to do or the
  separator is not in the inserted name (`Migration0003.OverlaySettlesIff`). Otherwise every further run of the migration
  inserts it again (`Migration0003.OverlayEveryRun`); a `.env` joined by "g" is one
  (`Migration0003.OddSeparatorNeverSettles`).
- The retention horizon is documented as carried over unchanged (docs/30-operations.md:279-280). With no new name set it
  is, if and only if the days are written as a plain number, without sign or leading zero, or are not written and retention is on (`Retention.MeaningKeptIff`). Other
  days become a horizon that nothing can read and the next check reports (`Retention.ReportedAfterwardsIff`): 030, read
  as 30 before, is one (`Retention.PaddedDaysAreLost`).
- A rotation revokes the key it has just installed if and only if the CMS handed out the old key's row number again
  (`Tokens.RotateKeepsNewKeyIff`); an `engine.env` that outlived the CMS's rows is such a case
  (`Tokens.ReusedRowIsRevoked`).
- A recorded start leaves the index built for its images if and only if core checks itself, the images moved by the
  record, or the index was built for them or not there (`SearchIndex.RecordedIsSettledIff`): an upgrade abandoned during
  a rebuild and rolled back is recorded over a half-built index (`SearchIndex.GoingBackIsUnsettled`).
- A marker stops a migration that raised, not one that was killed: the next run starts a migration again, idempotent or
  not, complete or not, if and only if a kill left it unrecorded, or it raised and is idempotent
  (`Migrate.StartsAgainIff`).
- The schema checker differs from draft-07 on chained references (`Schema.ReferenceAgreesIff`), on booleans compared with
  numbers (`Schema.EqualAgreesIff`), on numbers such as 1.0 asked to be integers (`Schema.KindAgreesIff`), and on floats
  and booleans below a `minimum`, such as 0.5 below 1 where no type is asked for (`Schema.MinimumAgreesIff`).

## Model

| member | source | states |
|---|---|---|
| Routing.RoutingRefinesOwner | neops_compose/traefik_model.py:137-217 | on a validated, separated layout every request has one highest-priority router and it serves as the owner would, if and only if the path is not claimed in the middle of a segment |
| Routing.RouterClasses | neops_compose/traefik_model.py:137-217 | a router is compiled if and only if it is the web, deny, a core or a present service's router |
| Routing.Candidates | neops_compose/traefik_model.py:137-217 | every router that matches a request is of one class, with that class's priority and claim on the path |
| Routing.DenyWins | neops_compose/traefik_model.py:158-174 | a worker call is won by the deny router alone |
| Routing.CoreWins | neops_compose/traefik_model.py:137-155 | otherwise a core prefix of the path wins alone on the web host |
| Routing.ServicesWin | neops_compose/traefik_model.py:158-206 | below them exactly the services whose prefix claims the path share the highest priority |
| Routing.WebWins | neops_compose/traefik_model.py:186-198 | and the web client wins on its host when nothing else claims the path |
| Routing.OwnersUnique | neops_compose/rules.py:361-397 | in a validated, separated layout no two services own one request |
| Routing.StraddlerWins | neops_compose/traefik_model.py:54-59 | a winning service that claims the path only as text takes the request from its owner |
| EndToEnd.AcceptedUnpacks | neops_compose/rules.py:104-147 | no reported problem means the URLs parse, the ports are numbers, the configuration compiles and no URL rule is broken |
| EndToEnd.AcceptedIsValidated | neops_compose/rules.py:306-444 | an accepted Traefik configuration meets what the routing theorems assume, ports included |
| EndToEnd.OverreachedIsShadowed | neops_compose/rules.py:357-397 | under a service's URL the exception of the routing theorem does not depend on the request |
| EndToEnd.PortLeadsToEntrypoint | neops_compose/traefik_model.py:98-107 | a URL's port is published and leads to exactly the entrypoint that carries its router |
| EndToEnd.MonitorPathRestored | neops_compose/render.py:125-129 | what the monitor is handed, behind MONITOR_BASE_PATH, is the public path |
| EndToEnd.PortIsReserved | neops_compose/preflight.py:98-137 | the host port of every URL is among those preflight reserves |
| EndToEnd.ReservedIffPublished | neops_compose/preflight.py:98-117 | what preflight reserves for the proxy is exactly what the proxy publishes, on its bind address |
| EndToEnd.RequiredIff | neops_compose/preflight.py:128-137 | and beside it exactly Keycloak's and Grafana's ports, where they run |
| EndToEnd.ServiceReached | neops_compose/traefik_model.py:158-206 | a request under a service's URL reaches it alone, prefix handled, if and only if the URL is not shadowed |
| EndToEnd.PublicUrlReachesService | neops_compose/rules.py:399-444 | end to end: in an accepted configuration a request to a service's public URL hits a port whose entrypoint delivers it to that service, if and only if the URL is not shadowed, and the port is reserved |
| EndToEnd.WorkerRoutesRefused | neops_compose/traefik_model.py:158-174 | on the engine's host the deny router wins alone if and only if the request is a POST Express would match to a worker route |
| EndToEnd.EngineSeesTheRest | neops_compose/traefik_model.py:158-174 | every other request under the engine's URL reaches the engine with exactly the prefix taken off |
| Serving.PlainHttpRedirects | neops_compose/traefik_model.py:83-107 | accepted: routers end TLS exactly when the URLs are https; plain HTTP then has no router and redirects to the port the https URLs carry, and nothing else redirects |
| Serving.HandedOver | neops_compose/traefik_model.py:110-206 | the path each service is handed, for each of the six, the bare /admin and /accounts redirected |
| Serving.CoreHandedOver | neops_compose/traefik_model.py:121-155 | the same for what a core prefix takes |
| Serving.PortsAreRead | neops_compose/rules.py:255-264 | each port is read from its own key |
| Serving.ListsAreRead | neops_compose/scenario.py:24-38 | file list and trusted proxies read as the names written, without the white space around them or blank entries |
| EndToEnd.TiesIffNotSeparated | neops_compose/rules.py:387-397 | two services own one request, and both their routers win it, if and only if a service without a path shares a host with another |
| EndToEnd.UniqueIffNoRivals | neops_compose/traefik_model.py:137-217 | in any complete layout of well-formed URLs every request has at most one winner if and only if no service's path continues another's as text on one host below core |
| EndToEnd.WinnersUniqueIff | neops_compose/rules.py:357-397 | in a validated layout every request has at most one winner if and only if services are separated and no path continues another in the middle of a segment, core prefixes aside |
| RoutingExamples.OneHostForTwoServices | neops_compose/rules.py:387-397 | a complete `.env`, secrets included, that has no problem and two winners for one request |
| RoutingExamples.EngineUnderAdministrator | neops_compose/rules.py:357-385 | a complete `.env`, secrets included, that has no problem and in which no request under the engine's URL, of any method, reaches the engine |
| RoutingExamples.OnePrefixInsideAnother | neops_compose/rules.py:357-397 | a complete `.env`, secrets included, that has no problem, in which every service carries a path, and two winners for one request |
| DenyPattern.PatternIsExpress | neops_compose/traefik_model.py:61-66 | the deny expression accepts exactly the prefix followed by a path Express hands to a worker route, case folded, one trailing slash allowed |
| DenyPattern.RouteSegments | neops_compose/routes.py:41-46 | the joined fragments accept exactly the worker routes, read segment by segment |
| DenyPattern.SlashAfterRoute | neops_compose/routes.py:11-21 | allowing a trailing slash adds no route that its slashless form would not be |
| Rules.FileProblems | neops_compose/rules.py:149-177 | reports exactly the unknown and the missing files of the list |
| Rules.DependentProblems | neops_compose/rules.py:149-177 | reports exactly the overlays that lack Traefik |
| Rules.ParseUrls | neops_compose/rules.py:241-253 | yields exactly the URLs that parse and a problem for exactly the others |
| Rules.PrefixCollisions | neops_compose/rules.py:387-397 | reports exactly the pairs of prefixed URLs on one origin of which one path contains the other by segment, named in table order |
| Rules.PathRules | neops_compose/rules.py:361-397 | reports exactly the reserved, missing, misplaced and overlapping paths |
| Rules.TraefikRules | neops_compose/rules.py:399-420 | reports exactly the scheme and port problems behind Traefik |
| Rules.UpstreamProxyRules | neops_compose/rules.py:315-333 | reports exactly the problems behind a proxy that ends TLS |
| Settings.Required | neops_compose/rules.py:216-238 | an issue for exactly the keys that are unset or, with checks on, a placeholder or too short, and it says why |
| Settings.FlagReads | neops_compose/env.py:36-37 | a flag is on for 1, true, yes and on, in any case and with blanks around, and off for any other word |
| Settings.UnsetFlagIsOff | neops_compose/env.py:36-37 | a flag that is unset or empty is off |
| Settings.Issues | neops_compose/rules.py:74-146 | reports exactly the faults of single keys: secrets, TLS files, ACME, OIDC, addresses and logging |
| Rules.Problems | neops_compose/rules.py:104-147 | the list is exactly the problems of overlays, single keys, URLs and ports, URL rules applying once base URLs and ports are readable; it is empty if and only if the configuration is accepted, as the routing theorems assume |
| Acceptance.AcceptedIff | neops_compose/rules.py:104-444 | no problem is reported if and only if the configuration is sound, said of overlays, secrets, addresses, URLs and ports and not of problems: nothing wrong passes and nothing right is refused |
| Acceptance.UnderIsContinues | neops_compose/rules.py:357-358 | one path is under another exactly when its segments begin with the other's |
| Acceptance.SecretRefusedIff | neops_compose/rules.py:216-238 | whatever else is wrong, a generated secret is refused if and only if it is unset or, with checks on, a placeholder or shorter than 16 |
| Acceptance.LengthDecides | neops_compose/rules.py:216-238 | a secret of n non-blank characters that is no placeholder is refused if and only if n < 16 |
| Acceptance.LongerStaysStrong | neops_compose/rules.py:216-238 | a longer secret is never refused where a shorter one passed, placeholders aside |
| Acceptance.PlaceholderInAnySpelling | neops_compose/rules.py:233-235 | with checks on, a placeholder is refused as a secret in any case and with blanks around |
| Acceptance.AcceptedSecretsAreStrong | neops_compose/rules.py:74-83 | accepted: every secret the scenario needs is set and, with checks on, strong |
| UrlText.ParseIff | neops_compose/urls.py:31-56 | the grammar: a text is read as a URL if and only if the URL is well formed and the text one of its spellings (blanks around, capitals in scheme and host, empty user info, the default port left out or written, slashes at the end) |
| UrlText.LooseSpelling | neops_compose/urls.py:31-56 | any URL printed, with slashes behind and blanks around it, is read as itself |
| UrlText.FullSpelling | neops_compose/urls.py:31-56 | so it is with its port written out and scheme and host in capitals |
| Text.CapitalsFold | neops_compose/urls.py:31-56 | capitals are the small letters of the same place in the alphabet, and nothing else changes |
| UrlText.MarksAreRefused | neops_compose/urls.py:33-40 | a query, a fragment, a tab or a line break is refused wherever it stands |
| UrlText.UserInfoIsRefused | neops_compose/urls.py:38-39 | user info is refused unless it is empty |
| UrlText.BadPortIsRefused | neops_compose/urls.py:48-54 | port 0 and ports above 65535 are refused |
| Urls.PrintParses | neops_compose/urls.py:31-71 | every well-formed URL is parsed back from its text |
| Urls.ParsePrintRoundTrip | neops_compose/urls.py:31-71 | parse(str(u)) == u for every URL parse returns |
| Urls.SameOriginIffTripleEqual | neops_compose/urls.py:58-67 | printed origins are equal if and only if scheme, host and port are, default ports elided |
| PublicUrls.WantedKeys | neops_compose/urls.py:73-85 | exactly the base URLs, Keycloak's with its overlay and Grafana's when it runs and is set |
| PublicUrls.PublicUrlsOf | neops_compose/urls.py:73-85 | what it returns has the base URLs, each well formed |
| Scenarios.PartsRoundTrip | neops_compose/scenario.py:24-38 | a list of trimmed non-blank names without the separator reads back from its joined text |
| Scenarios.PartsOfPadded | neops_compose/scenario.py:24-26 | a list written with white space and blank entries reads as its names |
| EnvFile.ReadSet | neops_compose/env.py:39-43 | after a set the file reads as before but for the key, wherever and however often it stood |
| EnvFile.ReadUnset | neops_compose/env.py:45-48 | after an unset the file reads as before without the key |
| EnvFile.ReadRename | neops_compose/env.py:50-69 | after a rename in place the new key reads what the old one did and nothing else changes |
| EnvFile.EditsKeepCoherence | neops_compose/env.py:39-69 | after any sequence of edits the values in memory are the last-wins reading of the file |
| EnvFile.RenameCarriesValue | neops_compose/env.py:50-69 | a rename that does not raise carries over the value compose read, and no other key changes |
| EnvLines.UnsetLeavesOthers | neops_compose/env.py:45-48 | an unset leaves exactly the lines that do not assign the key |
| EnvLines.SetRewritesInPlace | neops_compose/env.py:39-43 | a set rewrites every assignment of the key where it stands, or appends one if there is none |
| EnvLines.RenameInOneLine | neops_compose/env.py:50-69 | a key on one `KEY=` line is renamed there in one write, indentation, `export` and value kept, every other line untouched |
| EnvLines.RenameMovesToEnd | neops_compose/env.py:50-69 | otherwise the value moves to the end and exactly the assignments of the old key go |
| EnvLines.WritesKeepOthers | neops_compose/env.py:39-69 | every content an edit puts in the file has the same comments, blank lines and assignments of other keys, in the same order |
| EnvLines.EditsKeepOthers | neops_compose/env.py:39-69 | so have any number of edits |
| EnvFile.Env.SetKey | neops_compose/env.py:39-43 | the object ends in the contents of the edit, through its one write |
| EnvFile.Env.UnsetKey | neops_compose/env.py:45-48 | the object ends in the contents of the edit, which writes only when the key is there |
| EnvFile.Env.RenameKey | neops_compose/env.py:50-69 | raises exactly in the checked cases; else ends in the contents of the edit, through the writes of its rename or of its set and unset |
| Migration0003.StepPoints | migrations/0003_grafana_and_logs_layout.py:28-95 | between its writes a step leaves the file half renamed or finished, never anything else |
| Migration0003.StepResumes | migrations/0003_grafana_and_logs_layout.py:28-95 | a step interrupted after any write and run again ends in the file it would have ended in |
| Migration0003.CrashRejoins | migrations/0003_grafana_and_logs_layout.py:28-36 | so do the steps together, from any content the file goes through |
| Migration0003.CrashIdempotent | migrations/0003_grafana_and_logs_layout.py:28-95 | interrupted after any write, the migration run again ends in the very file of one uninterrupted run |
| Migration0003.MigratedForGood | migrations/0003_grafana_and_logs_layout.py:28-95 | afterwards no old key survives, the overlay is there, and another run writes nothing |
| Migration0003.OverlayJoins | migrations/0003_grafana_and_logs_layout.py:39-47 | the overlay is inserted before the metrics overlay in the list read back, once, and only if it was missing |
| MigratedFile.GrafanaStandsBeforeMetrics | migrations/0003_grafana_and_logs_layout.py:39-47 | the inserted overlay stands right before the first metrics overlay and nothing else moves |
| Migration0003.OverlaySettlesIff | migrations/0003_grafana_and_logs_layout.py:39-47 | for a one-character separator the overlay step settles if and only if it had nothing to do or the separator is not in the inserted name |
| Migration0003.OverlayEveryRun | migrations/0003_grafana_and_logs_layout.py:39-47 | where it does not settle, after any number of runs of the whole migration the next one inserts the overlay again |
| Migration0003.OddSeparatorNeverSettles | migrations/0003_grafana_and_logs_layout.py:39-47 | a `.env` for which that happens |
| Migration0003.RetentionAfterAll | migrations/0003_grafana_and_logs_layout.py:64-95 | the toggle and the horizon after the migration as a function of every key before it |
| MigratedFile.ClassAndBackendAfter | migrations/0003_grafana_and_logs_layout.py:50-61 | NEOPS_LOG_CLASS reads as the old class did if and only if it was unset and that class is OptimizedDbLogger or a dotted name ending in it, else as before; the backend keeps its reading or is db |
| MigratedFile.MigrationKeepsOthers | migrations/0003_grafana_and_logs_layout.py:28-95 | before, after and at every write in between, the lines that assign none of its keys are the same, in the same order |
| Retention.MeaningKeptIff | migrations/0003_grafana_and_logs_layout.py:64-95 | with no new name set the toggle means what it meant; the horizon, read in days before and after, is the same if and only if the days are a plain number, or unset with retention on; it is unreadable exactly when the days are set otherwise |
| Retention.ReportedAfterwardsIff | neops_compose/rules.py:206-213 | the migrated horizon is reported by the next check if and only if the days were not a plain number |
| Retention.HorizonIff | neops_compose/rules.py:62-66 | a horizon is a plain number and d, reading as that many days, or a plain number and w, reading as seven times as many; nothing else is |
| Retention.ToggleReads | migrations/0003_grafana_and_logs_layout.py:80-85 | the toggle is on for every number but 0 |
| Retention.WordToggleReads | migrations/0003_grafana_and_logs_layout.py:80-85 | and of words exactly for true, on, ok, y and yes, in any case, white space around |
| Retention.PaddedDaysAreLost | migrations/0003_grafana_and_logs_layout.py:72-77 | a `.env` with days 030: 30 before, unreadable and reported after |
| Migration0003.CrashKeepsKey | migrations/0003_grafana_and_logs_layout.py:28-95 | a key no step touches reads the same in every content the file goes through |
| Migration0003.Move | migrations/0003_grafana_and_logs_layout.py:88-95 | a rename in place where possible, else a set and an unset: ends in the contents and goes through the writes of those edits |
| Migration0003.MoveLoggerClass | migrations/0003_grafana_and_logs_layout.py:50-61 | the class and backend steps: ends in their contents, through their writes in that order |
| Migration0003.AddGrafanaOverlay | migrations/0003_grafana_and_logs_layout.py:39-47 | the overlay step: ends in its contents, through its one write or none |
| Migration0003.CarryRetentionOver | migrations/0003_grafana_and_logs_layout.py:64-69 | the retention step: ends in its contents, through the write of the horizon and the removal of the days |
| Migration0003.ApplyToEnv | migrations/0003_grafana_and_logs_layout.py:28-36 | the object ends in the migrated contents through exactly the writes the crash lemmas range over |
| Migrate.Installation.ApplyAll | neops_compose/migrate.py:121-154 | the loop leaves the disk, outcome and starts of the specified run, however each migration ends |
| Migrate.Installation.Fake | neops_compose/migrate.py:157-165 | records a discovered, not yet applied name as applied and faked, or changes nothing |
| Ledger.FakeSticks | neops_compose/migrate.py:157-165 | a fake is refused exactly for an unknown or applied name and then changes nothing; else the name is recorded as applied and faked for good, and the migration never starts |
| Ledger.FinishesIff | neops_compose/migrate.py:121-154 | a run finishes if and only if every apply completes and no pending migration is held back by its marker |
| Ledger.FinishedRun | neops_compose/migrate.py:99-154 | a run that finishes started every migration not applied, in order, each on what the one before left, and recorded them all; their markers are gone, no other |
| Ledger.RunInOrder | neops_compose/migrate.py:121-154 | any run starts the pending migrations in order and records exactly the first ones, that completed; what was faked stays |
| Ledger.AppliedForGood | neops_compose/migrate.py:99-165 | an applied migration stays applied and never starts again, over any history |
| Migrate.RunKeepsDestination | neops_compose/migrate.py:121-154 | however a run ends, a clean run from there ends where a clean run would have |
| Migrate.InterruptedThenCompleted | neops_compose/migrate.py:121-154 | any number of interrupted runs and one that completes leave world, record and markers of one clean run, for resumable migrations |
| Migrate.HistoryIsSafe | neops_compose/migrate.py:99-165 | over any interleaving applied names never repeat, faked names are applied, and a migration starts only when every earlier one is applied |
| Migrate.RaisedIsMarked | neops_compose/migrate.py:138-148 | a run that ends in a raised error leaves that migration's marker |
| Migrate.MarkedNeverRuns | neops_compose/migrate.py:129-137 | a non-idempotent migration with a marker never starts until the marker is removed |
| Migrate.StartsAgainIff | neops_compose/migrate.py:129-154 | for each way a started migration ends, whether the next run starts it again: if and only if a kill left it unrecorded, or it raised and is idempotent; otherwise no event of the next run is its start |
| Releases.ShippedAreResumable | migrations/0003_grafana_and_logs_layout.py:1-36 | the shipped migrations meet the runner theorem's hypothesis |
| Releases.UpgradesSurviveInterruption | neops_compose/migrate.py:121-154 | interrupted upgrades over the shipped migrations end as one clean run, for every readable `.env` |
| Tokens.TokensStaySafe | neops_compose/token.py:160-190 | at every step of any sequence of ensure and rotate calls failing anywhere, the keys of `engine.env` and of the engine are accepted, and a revoke removes only a key neither holds |
| Tokens.EnsureSettles | neops_compose/token.py:168-180 | an uninterrupted ensure ends with an accepted key: the world unchanged if it found one, else exactly the new row, file, engine and record; the next ensure does nothing, whatever its check answers |
| Tokens.UnansweredCheckChangesNothing | neops_compose/token.py:168-180 | an unanswered check raises before anything changes |
| Tokens.RotateEnds | neops_compose/token.py:182-190 | a rotation whose calls work ends with the new key in CMS, file, engine and record, and without the row of the key the file held |
| Tokens.OldKeySurvivesIff | neops_compose/token.py:182-190 | afterwards the old key is accepted if and only if the revocation failed before it reached the row |
| Tokens.RaisedRotateRevokesNothing | neops_compose/token.py:182-190 | a rotation that raises leaves every row there was |
| Tokens.RotateReturnsIff | neops_compose/token.py:160-190 | it returns exactly when mint, write, key, save and start work, whatever the revocation does |
| Tokens.RotateKeepsNewKeyIff | neops_compose/token.py:182-190 | after a rotation the new key is held by both and accepted, if and only if its row number is not the old key's |
| Tokens.ReusedRowIsRevoked | neops_compose/token.py:182-190 | a world whose rotation revokes the key it installs |
| Tokens.Deployment.Install | neops_compose/token.py:160-166 | goes through the specified worlds in order: file, record, engine |
| Tokens.Deployment.EnsureEngineToken | neops_compose/token.py:168-180 | goes through the specified worlds and reports whether it minted |
| Tokens.Deployment.RotateEngineToken | neops_compose/token.py:182-190 | goes through the specified worlds, the revocation last and its failure caught |
| GeneratedTree.EmittedPathsApart | neops_compose/render.py:60-84 | no emitted path is another one or a directory above it, in any scenario |
| GeneratedTree.EmittedIff | neops_compose/render.py:60-84 | which files a scenario has, file by file |
| GeneratedTree.NextRenderNeverClashes | neops_compose/render.py:39-84 | after a render, rendering the same or any other scenario finds nothing in its way |
| GeneratedTree.SweepIsExact | neops_compose/render.py:91-94 | one pass, the deepest first, removes exactly the visited directories that hold no file |
| GeneratedTree.DeepestFirstSuffices | neops_compose/render.py:91-94 | over all directories it leaves exactly those above a file |
| GeneratedTree.ShallowFirstLeavesParent | neops_compose/render.py:91-94 | parents first, one pass does not |
| GeneratedTree.Tree.WriteSecret | neops_compose/secrets.py:21-33 | writes the file and opens its directories, or fails exactly on a clash and changes nothing |
| GeneratedTree.Tree.RemoveStale | neops_compose/render.py:87-94 | keeps exactly the written files and exactly their ancestor directories |
| GeneratedTree.Tree.Render | neops_compose/render.py:39-84 | fails exactly when a file's contents cannot be built or its path clashes with the earlier tree; otherwise the tree is exactly the emitted files and their directories, whatever it held |
| SearchIndex.Stack.Refresh | neops_compose/search_index.py:38-86 | rebuilds for the running images exactly when core checks itself or the images moved |
| SearchIndex.Stack.Up | neops_compose/workflow.py:140-197 | ends in the specified world for every way a start ends, the record written before doctor answers |
| SearchIndex.RecordedIsSettledIff | neops_compose/search_index.py:38-75 | a recorded start leaves the index built for its images if and only if core checks itself, the images moved, or the index was built for them or not there |
| SearchIndex.RecordIs | neops_compose/workflow.py:140-148 | the record changes only with a recorded start, keeps its images whatever doctor does, and says doctor was ok exactly when it answered so |
| SearchIndex.IndexKeptIff | neops_compose/search_index.py:38-75 | with an older core and unmoved images no start changes the index |
| SearchIndex.RetryIsRight | neops_compose/workflow.py:151-174 | a start that fails before its record leaves a world in which the same images come out right |
| SearchIndex.RecordedStartsAreSettled | neops_compose/workflow.py:140-197 | over any run in which unrecorded starts are retried with the same images, every recorded start leaves the index built for the recorded images |
| SearchIndex.GoingBackIsUnsettled | neops_compose/search_index.py:70-75 | without the retry a start can be recorded over a half-built index |
| Burst.LinesDueCounts | tests/e2e/loadgen.py:189-191 | the floor counts exactly the lines whose due instant has passed |
| Burst.Emitter.Emit | tests/e2e/loadgen.py:210-221 | logs every line once, in order, none before it is due, each at the first clock reading that finds it due; not over before the last line is due |
| Burst.SurelyAfterIff | tests/e2e/loadgen_driver.py:143-148 | in every possible burst the lines from a number on come after an instant, if and only if no more are due by then |
| Burst.OutageWindowIsAfterFault | tests/e2e/chaos_logs.py:704-708 | the outage window holds only lines logged after the fault began, if the start was read at most the settle time late |
| Burst.OutageWindowIff | tests/e2e/chaos_logs.py:704-708 | the outage window holds exactly the sent lines not yet due, by the driver's clock, two seconds into the fault |
| Burst.RecentWindowIff | tests/e2e/chaos_logs.py:709-712 | the recent window holds exactly the lines due between six and three seconds before the service is back or the burst over |
| Burst.NoOutcomeNoLines | tests/e2e/loadgen_driver.py:143-148 | without a summary or a start no line is due |
| Burst.SettleIsNeeded | tests/e2e/chaos_logs.py:704-708 | read later than that, for some rate it does not |
| Burst.DueByBoundsIff | tests/e2e/loadgen_driver.py:143-148 | `due_by` bounds the lines out by every instant if and only if the start was not read late or nothing was sent |
| Burst.DueByUndercounts | tests/e2e/loadgen_driver.py:143-148 | a late reading for which it does not |
| Burst.QuickPassesKeepUp | tests/e2e/loadgen.py:210-221 | an emitter is behind its schedule by at most the time from one clock reading to the lines the next lets out |
| Burst.RecentWindowIsBeforeBack | tests/e2e/chaos_logs.py:709-712 | the recent window holds only lines logged before the service was back, if the emitter keeps up to the slack and the start was not read early |
| Burst.RecentWindowIsRecent | tests/e2e/chaos_logs.py:709-712 | and none older than the recent time plus the settle time |
| Burst.RecentWindowSize | tests/e2e/chaos_logs.py:704-712 | it holds exactly three seconds of lines, within the burst and, for a long enough fault, within the outage window |
| DropOrder.OldestDroppedIff | tests/e2e/loadgen_driver.py:270-293 | `oldest_dropped` holds if and only if the stored lines of the window are a non-empty final segment of it |
| DropOrder.NewestKeptIff | tests/e2e/loadgen_driver.py:270-293 | `newest_kept` holds if and only if a recent line is stored |
| DropOrder.VerdictIs | tests/e2e/loadgen_driver.py:270-293 | the verdict's parts: the oldest kept line of the outage, the lines missing from there on in order, and the number of recent lines kept |
| DropOrder.OldestDroppedIffNoLateLoss | tests/e2e/loadgen_driver.py:270-293 | under either policy and over any run: `oldest_dropped` holds if and only if a line of the window is kept and none is lost after a kept one |
| DropOrder.DropOldestIsAcceptedIff | tests/e2e/loadgen_driver.py:270-293 | a drop-oldest buffer passes it if and only if the window is not empty and, after the fault, no overflow takes a line past one of the window already pushed |
| DropOrder.DropOldestKeepsNewestIff | tests/e2e/loadgen_driver.py:270-293 | and passes `newest_kept` if and only if a recent line was still held at the fault's end and no later overflow takes it |
| DropOrder.DropOldestIsAccepted | tests/e2e/loadgen_driver.py:270-293 | with room for all that follows the fault it passes the first, and the second if and only if its room reaches back to the newest recent line |
| DropOrder.LateDropIsRejected | tests/e2e/loadgen_driver.py:270-293 | a drop-oldest run that overflows while it drains and is rejected |
| DropOrder.RefuseNewestHalfIff | tests/e2e/chaos_logs.py:715-734 | a refuse-newest buffer that overflowed during the fault passes `oldest_dropped` if and only if the window opened after its first refusal, something was kept later, and nothing refused after that |
| DropOrder.RefuseNewestHalf | tests/e2e/chaos_logs.py:715-734 | so it is rejected when the window holds a line stored before the first refused one, and, when it resumes with room, only then |
| DropOrder.RefuseNewestIsRejected | tests/e2e/chaos_logs.py:715-734 | a buffer that refuses new lines when full passes both halves if and only if it lost nothing of the outage |
| DropOrder.FullRefuserPassesHalf | tests/e2e/chaos_logs.py:715-734 | it can pass the first half alone |
| Outages.WindowsAreInsideFault | tests/e2e/chaos_logs.py:704-712 | for an observed burst both windows hold only lines of the fault, and the recent one three seconds of them |
| Outages.DropOldestPassesIff | tests/e2e/chaos_logs.py:678-734 | the chaos verdict on any drop-oldest buffer, from clock readings to stored lines: both halves with their exact conditions |
| Outages.RoomyDropOldestPassesIff | tests/e2e/chaos_logs.py:678-734 | the same for one that has room after the fault: it passes if and only if its room reaches back to the newest recent line |
| Outages.RefuseNewestHalfPassesIff | tests/e2e/chaos_logs.py:715-734 | the first half alone on a refuse-newest buffer that overflowed during the fault |
| Outages.RefuseNewestPassesIff | tests/e2e/chaos_logs.py:678-734 | the chaos verdict on a refuse-newest buffer, from clock readings to stored lines |
| Accounting.SeriesHoldTheRecords | tests/e2e/logrecords.py:95-100 | the counters hold exactly the series and numbers of the records |
| Accounting.SameSeriesIff | tests/e2e/logrecords.py:95-100 | two records share a series exactly when service and process agree and, in a worker, the job |
| Accounting.CountSeries | tests/e2e/loadgen_driver.py:250-256 | the counting loop computes them |
| Accounting.AccountFor | tests/e2e/loadgen_driver.py:250-267 | the account's totals over all series, its burst lines and its reported drops |
| Accounting.BurstIndexRoundTrip | tests/e2e/loadgen.py:180-182 | the index of a burst line is read back from its text |
| Accounting.NumberedIff | tests/e2e/loadgen.py:43-90 | a numbered line is its words around digits, one line feed at most behind |
| Accounting.DropCountRoundTrip | tests/e2e/loadgen.py:90 | the count of a dropped-lines line is read back from its text |
| Accounting.DropsAddUp | tests/e2e/loadgen_driver.py:250-267 | the reported drops add up over any two lots of records |
| Accounting.DropsOfOne | tests/e2e/loadgen_driver.py:250-267 | one record adds the number its drop report prints, and nothing if it is no drop report |
| Accounting.RecordsBalance | tests/e2e/loadgen_driver.py:250-267 | records = received + duplicates |
| Accounting.AbsentCountsIff | tests/e2e/loadgen_driver.py:245-262 | the pigeonhole within one series: what is numbered but not received is the count of absent numbers if and only if none is negative, and less otherwise |
| Accounting.MissingCountsAbsentIff | tests/e2e/loadgen_driver.py:245-262 | `missing` is the number of absent numbers below each series' highest if and only if no number is negative, and less otherwise |
| Accounting.SeqProblems | tests/e2e/logrecords.py:103-120 | reports exactly each series' doubled numbers, and its gaps where the service is listed |
| Accounting.CleanAccountIff | tests/e2e/logrecords.py:95-120 | nothing missing and nothing doubled if and only if nothing is reported and every series starts at 0 |
| Accounting.NegativeHidesHole | tests/e2e/loadgen_driver.py:245-262 | two records whose account misses nothing while the report shows a hole |
| Schema.LimitErrors | tests/e2e/logrecords.py:259-278 | empty if and only if the value meets every such keyword |
| Schema.NameErrors | tests/e2e/logrecords.py:316-322 | empty if and only if the name meets the rule and is not reserved |
| Schema.Errors | tests/e2e/logrecords.py:249-256 | empty if and only if the value holds against the node; raises on an unusable reference only |
| Schema.ObjectErrors | tests/e2e/logrecords.py:299-312 | empty if and only if every required key, the size and every member hold |
| Schema.SchemaErrors | tests/e2e/logrecords.py:220-222 | for every finite record: empty if and only if the record holds, and, where the readings agree, if and only if it is valid by draft-07 |
| Keywords.NodeIsItsKeywords | tests/e2e/logrecords.py:249-322 | a node asks for each of its keywords, and nothing else |
| Keywords.TypeMeans | tests/e2e/logrecords.py:234-246 | what `type` asks |
| Keywords.StringsMean | tests/e2e/logrecords.py:265-271 | what `minLength`, `maxLength` and `pattern` ask, of strings alone |
| Keywords.FormatMeans | tests/e2e/logrecords.py:272-275 | what `format` asks, of strings alone |
| Keywords.MinimumMeans | tests/e2e/logrecords.py:276-277 | what `minimum` asks, by draft-07 and by the checker |
| Keywords.ValuesMean | tests/e2e/logrecords.py:259-264 | what `const` and `enum` ask |
| Keywords.EqualMeans | tests/e2e/logrecords.py:259-264 | what equality is, kind by kind, by draft-07 and in Python |
| Keywords.SizesMean | tests/e2e/logrecords.py:299-302 | what `required` and `maxProperties` ask, of objects alone |
| Keywords.MembersMean | tests/e2e/logrecords.py:303-312 | what `properties` and `additionalProperties` ask of each member |
| Keywords.NamesMean | tests/e2e/logrecords.py:316-322 | what `propertyNames` asks of each name |
| Keywords.ReferenceMeans | tests/e2e/logrecords.py:225-231 | a reference asks for what it names, whatever stands beside it |
| Keywords.BadReferenceFails | tests/e2e/logrecords.py:225-231 | any other reference is an error and never a valid record |
| Schema.CheckerReadsDraft07 | tests/e2e/logrecords.py:220-322 | the readings agree for every record without numbers such as 1.0 and every schema whose definitions are not references, whose constants cannot be confused with a value of their node's type, and which asks for a `minimum` only beside a type other than boolean |
| Schema.ReferenceAgreesIff | tests/e2e/logrecords.py:225-231 | one step of resolution is the whole chain if and only if it does not end at another reference |
| Schema.EqualAgreesIff | tests/e2e/logrecords.py:258-263 | `const` and `enum` agree if and only if Python's equality never pairs a boolean with a number |
| Schema.ChainedReferenceIsIgnored | tests/e2e/logrecords.py:225-231 | a number that passes for a string through a chained reference |
| Schema.BooleansPassForNumbers | tests/e2e/logrecords.py:258-278 | booleans that pass for numbers |

## Left out

- Routing behind an upstream proxy that ends TLS: several ports on one host make host and origin differ; its validation rules are modelled, its routing is not.
- What Python's ipaddress reads as an address or a network: two parameters of the settings rules.
- Traefik's services and middleware tables, static configuration and router names: the routers carry service and middlewares directly.
- PatternIsExpress: paths without a line feed, where `.` and Express agree, and ASCII case folding only; Go's folding of other letters is not modelled.
- Traefik serves a path stripped to nothing as `/`: the model hands on the empty text.
- EngineSeesTheRest: on separated, unshadowed layouts, which `WinnersUniqueIff` and `ServiceReached` show to be needed.
- PublicUrlReachesService: host ports are taken to be pairwise distinct, which preflight does not establish.
- Parse: bracketed hosts, non-ASCII text and user names that `urlsplit` treats specially; and Python also drops vertical tabs, form feeds and the other control characters around a URL, which the model rejects.
- Strip, for every other value: white space is blank, tab, carriage return and line feed.
- Integers with underscores or non-ASCII digits, which Python's int() reads.
- The `.env` text itself: quoting, escapes, interpolation and bare keys. python-dotenv's set_key and unset_key are assumed to rewrite or drop every assignment of a key, and each edit to replace the file in one step; the empty file a set makes of a missing one is not a step of its own.
- CrashIdempotent: a one-character list separator that does not occur in the overlay's name; `OverlaySettlesIff` shows what happens otherwise.
- The snapshot before a run, parent directories, ownership changes and file modes; the applied record's timestamps.
- A write of `engine.env` that stops half way, other than at the truncated file.
- The contents render gives each file: an arbitrary function of the path here, except MONITOR_BASE_PATH and the published ports; it may also have no contents, for want of a URL or a secret.
- RemoveStale: symbolic links and special files under `generated/`.
- How the old CMS read the retention days: taken as an integer, white space around it allowed.
- Whether core's own staleness check is right, and two starts with one image name for different images.
- AccountFor: `burst_received` and `newest_burst`, the size and the maximum of its set of burst lines.
- Start: a rebuild interrupted on the CLI's side keeps running inside the CMS, so the index may still change after a failed refresh; the model lets the failure leave any index, and takes it to stay until the next start.
- Emit: instants are exact reals rather than floats, and the clock is assumed to pass the last due instant.
- DropOrder: a buffer is flushed whole at the end of a run, and pushes take lines off its front in order.
- SeqProblems: in any order of the series and without its wording; identity keys, run lines and levels are left out as easy members.
- BurstIndexRoundTrip: ASCII digits.
- Errors: the pattern, UUID and date-time libraries are parameters; members are visited in any order, and problems carry path and keyword, not wording.
- NameErrors: of a `propertyNames` rule the scalar keywords and `not` with `enum`.
- Docker, compose, HTTP probes, certificates, key generation, Playwright and the Keycloak API.
- The argument parser, backups, `status`, message texts and log lines.
