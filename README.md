# keycloak-export: realm import/export reconciliation, modelled in Dafny

This project models the import/export layer that cloudtrust's keycloak-export adds on top of Keycloak, and proves properties of that model. The layer has two generations of code: the legacy module (`src/...`) and the current one (`keycloak-export/...`). Both are modelled.

- **Credential codec** (`CredentialCodec`, legacy module). A wire credential with a plaintext value is hashed by the host under the realm's password policy. Any other credential is decoded field by field: optional fields are copied only when present, and a Base64 salt is decoded. The algorithm is migrated (HmacSHA1 becomes pbkdf2 for password types) or defaulted by type, and one-time-password digits and periods default to 6 and 30. Export is the inverse mapping, credential id included. Round trips are proved in both directions.
- **Required-action preserver** (`RequiredActions`, both modules). Before the host's import, each user's tags are saved and emptied, because the host would convert them through a closed enumeration. Afterwards they are added back verbatim.
- **Credential-preserving import** (`CredentialImport`, legacy module). Credentials are detached too, then recreated one by one for each imported user. The session's context realm is switched to the new realm and restored afterwards.
- **Conflict strategy** (`ConflictImport`, current module).
  - IGNORE_EXISTING skips a realm whose name is taken.
  - OVERWRITE_EXISTING removes the existing realm first. When that realm is the administration realm, it also clears every realm's management-client link.
- **Single-file bundle reader** (`BundleReader`). A token-level parser caches its result in a class field. The orchestrator imports the administration realm first, then the other realms in file order, all in one transaction. A post-pass then recreates missing management clients.
- **Export assembler** (`ExportAssembler`). After the host's structural export, the legacy module rewrites each exported user's credential list from the store. The current module's rewrite, as written, changes nothing (see Findings). The model keeps that behaviour in `ExportCurrentRealm`, and the intended rewrite separately in `ExportCurrentRealmIntended`.
- **Endpoints** (`Endpoints`). This covers the authorization rules, the realm name taken from a token's issuer, the import endpoint's error mapping, and the grant of the new realm's roles to its creator.

The host is abstract. `Directory.Store` is a class whose fields are the realm listing, the session's context realm and the per-realm password policies. Its methods stand for the host calls the code makes:
- `getRealmByName`, `removeRealm` and `setMasterAdminClient`
- `RealmManager.importRealm`, as `Directory.HostImport`
- `setupMasterAdminManagement`
- `createCredential`, and `updateCredential` with its policy check

Java `null` is `None`. A representation object's identity is its position in its list. The administration realm's name and `AdminRoles.ALL_REALM_ROLES` are parameters.

Behaviour of the code that the model keeps as it is:
- `importModel` runs every bundle inside one `runJobInTransaction`. The first failure aborts, and rolls back, the whole file (`BundleReader.ImportAll`, `SingleFileImportProvider.ImportModel`). A failing bundle does not let the following ones continue.
- After the import, a user that cannot be found by its pre-import id is a `NullPointerException` that aborts the import (`NullReference`). It is not a logged, non-fatal orphan. Tags are never upper-cased.
- An import without a strategy over an existing name fails in the host with a duplicate error (`ConflictImport.ExistingWithoutStrategyConflicts`).

## Model

| member | source | states |
|---|---|---|
| Base64.DecodeEncode | src/main/java/io/cloudtrust/keycloak/export/ExportResourceProvider.java:120 | decoding an encoded salt gives back the bytes |
| CredentialCodec.DecodeHashed | src/main/java/io/cloudtrust/keycloak/export/ImportExportUtils.java:96-142 | the pre-hashed path fails exactly when a salt is present and malformed, with the salt error |
| CredentialCodec.PathOf | src/main/java/io/cloudtrust/keycloak/export/ImportExportUtils.java:72-78 | definition of the dispatch: a present plaintext value selects the plaintext path, whatever else the credential carries; `CredentialImport.UpdateCredential` proves each path creates what it promises, and `CredentialCodec.ExportThenImport` that an export always takes the hashed path |
| CredentialCodec.ResolveAlgorithm | src/main/java/io/cloudtrust/keycloak/export/ImportExportUtils.java:119-131 | definition of the algorithm fix-up; its migration, defaults and idempotence are proved in `CredentialCodec.ResolveAlgorithmProperties` |
| CredentialCodec.ResolveAlgorithmProperties | src/main/java/io/cloudtrust/keycloak/export/ImportExportUtils.java:119-131 | password types never keep HmacSHA1 and default to pbkdf2, OTP types default to HmacSHA1, other supplied algorithms are kept, and resolving is idempotent |
| CredentialCodec.DecodeHashedDefaults | src/main/java/io/cloudtrust/keycloak/export/ImportExportUtils.java:115-141 | OTP digits default to 6, TOTP period to 30, password algorithm to pbkdf2; no salt stays no salt |
| CredentialCodec.ExportThenImport | src/main/java/io/cloudtrust/keycloak/export/ExportResourceProvider.java:114-129 | an exported credential takes the hashed path and imports back to the stored one except config and a migrated algorithm; equal to it iff the algorithm is stable |
| CredentialCodec.ImportIsStable | src/main/java/io/cloudtrust/keycloak/export/ImportExportUtils.java:96-142 | what the hashed import stores survives export and re-import unchanged |
| CredentialCodec.ImportThenExport | src/main/java/io/cloudtrust/keycloak/export/ExportResourceProvider.java:114-129 | import then export keeps id, type, device, hashed value, salt bytes, every supplied number and every unmigrated algorithm |
| CredentialCodec.ExportCredential | src/main/java/io/cloudtrust/keycloak/export/ExportResourceProvider.java:114-129 | definition of the legacy `exportCredential`; it is the inverse of the hashed import, as `CredentialCodec.ExportThenImport` and `CredentialCodec.ImportThenExport` prove |
| Directory.IndexOfName | keycloak-export/src/main/java/io/cloudtrust/keycloak/export/ImportExportUtils.java:25-27 | `getRealmByName` finds the first realm with that name, or reports that none has it |
| Directory.WithoutId | keycloak-export/src/main/java/io/cloudtrust/keycloak/export/ImportExportUtils.java:41 | `removeRealm` keeps exactly the realms with another id |
| Directory.UnknownTag | keycloak-export/src/main/java/io/cloudtrust/keycloak/export/ImportExportUtils.java:47-49 | finds a tag outside the host's enumeration, or proves all tags are in it |
| Directory.UnknownAction | keycloak-export/src/main/java/io/cloudtrust/keycloak/export/ImportExportUtils.java:47-49 | finds a user tag outside the host's enumeration, or proves every user's tags are in it |
| Directory.HostImport | keycloak-export/src/main/java/io/cloudtrust/keycloak/export/ImportExportUtils.java:61 | the host import refuses a taken name as a duplicate and refuses an unknown tag; on success the name and id were free, user ids distinct, and the new realm is appended |
| Directory.Store.SetMasterAdminClient | keycloak-export/src/main/java/io/cloudtrust/keycloak/export/ImportExportUtils.java:38 | only that realm's client link changes |
| Directory.Store.SetupMasterAdminManagement | keycloak-export/src/main/java/io/cloudtrust/keycloak/export/SingleFileImportProvider.java:55 | that realm gets its management client, nothing else changes |
| Directory.Store.RemoveRealm | keycloak-export/src/main/java/io/cloudtrust/keycloak/export/ImportExportUtils.java:41 | the listing loses exactly the realms with that id |
| Directory.Store.BasicImport | keycloak-export/src/main/java/io/cloudtrust/keycloak/export/ImportExportUtils.java:61 | fails exactly when the host import does, leaving the store unchanged; otherwise appends and returns the new realm's position |
| Directory.Store.CreateCredential | src/main/java/io/cloudtrust/keycloak/export/ImportExportUtils.java:143 | appends one credential to one user, nothing else changes |
| Directory.Store.UpdateCredential | src/main/java/io/cloudtrust/keycloak/export/ImportExportUtils.java:88 | the plaintext is accepted exactly when the context realm's policy accepts it; only then is a hashed credential appended |
| Directory.Store.SetUsers | keycloak-export/src/main/java/io/cloudtrust/keycloak/export/ImportExportUtils.java:64-68 | replaces one realm's users, nothing else changes |
| RequiredActions.DetachActions | keycloak-export/src/main/java/io/cloudtrust/keycloak/export/ImportExportUtils.java:50-58 | every present tag list is saved by position and emptied; null lists are neither saved nor changed |
| RequiredActions.DetachIsUndone | keycloak-export/src/main/java/io/cloudtrust/keycloak/export/ImportExportUtils.java:50-58 | restoring the saved tags gives back every original user: nothing is lost |
| RequiredActions.DetachedAreAccepted | keycloak-export/src/main/java/io/cloudtrust/keycloak/export/ImportExportUtils.java:47-61 | detached users carry no tag the host's enumeration can refuse |
| RequiredActions.AddAllSnoc | keycloak-export/src/main/java/io/cloudtrust/keycloak/export/ImportExportUtils.java:67 | adding tags one after the other, one more tag at the end |
| RequiredActions.AddAllContents | keycloak-export/src/main/java/io/cloudtrust/keycloak/export/ImportExportUtils.java:67 | after re-adding, a tag is present iff it was there before or was saved: nothing lost, nothing invented |
| RequiredActions.AddAllAppends | keycloak-export/src/main/java/io/cloudtrust/keycloak/export/ImportExportUtils.java:67 | distinct new tags are appended verbatim and in order |
| RequiredActions.Reattach | keycloak-export/src/main/java/io/cloudtrust/keycloak/export/ImportExportUtils.java:64-68 | the reattach loop computes the specified reattachment, failures included |
| RequiredActions.FailureSticks | keycloak-export/src/main/java/io/cloudtrust/keycloak/export/ImportExportUtils.java:64-68 | once a lookup fails, the loop's outcome is that failure |
| RequiredActions.ReattachOneEffect | keycloak-export/src/main/java/io/cloudtrust/keycloak/export/ImportExportUtils.java:65-67 | one entry succeeds when its user exists and changes only that user, adding the saved tags |
| RequiredActions.ReattachRestoresTags | keycloak-export/src/main/java/io/cloudtrust/keycloak/export/ImportExportUtils.java:64-68 | with distinct ids and every tagged user present, each tagged user gets its own tags and all other users are untouched |
| CredentialImport.ImportedAllShape | src/main/java/io/cloudtrust/keycloak/export/ImportExportUtils.java:53-55 | one stored credential per wire credential, in order |
| CredentialImport.ImportedAllFailure | src/main/java/io/cloudtrust/keycloak/export/ImportExportUtils.java:53-55 | a failure at some credential is the failure of the whole list |
| CredentialImport.ImportedAllSnoc | src/main/java/io/cloudtrust/keycloak/export/ImportExportUtils.java:53-55 | importing one more credential at the end of the list |
| CredentialImport.UpdateCredentialPlainText | src/main/java/io/cloudtrust/keycloak/export/ImportExportUtils.java:80-94 | succeeds iff the new realm's policy accepts the value; the failure names the user and changes nothing; the context realm is restored on every outcome |
| CredentialImport.UpdateCredentialHashed | src/main/java/io/cloudtrust/keycloak/export/ImportExportUtils.java:96-144 | creates exactly the decoded credential, or fails with the salt error and changes nothing |
| CredentialImport.UpdateCredential | src/main/java/io/cloudtrust/keycloak/export/ImportExportUtils.java:72-78 | a plaintext value wins over hashed fields; the store gains exactly the imported credential or is unchanged on failure |
| CredentialImport.DetachCredentials | src/main/java/io/cloudtrust/keycloak/export/ImportExportUtils.java:32-35 | every user's list, null included, is saved by position and replaced by an empty one |
| CredentialImport.AppliedFailureSticks | src/main/java/io/cloudtrust/keycloak/export/ImportExportUtils.java:51-56 | once a user's credentials fail, the loop's outcome is that failure |
| CredentialImport.CreateCredentials | src/main/java/io/cloudtrust/keycloak/export/ImportExportUtils.java:53-55 | one user's credentials are created in list order up to the first failure |
| CredentialImport.ApplyCredentials | src/main/java/io/cloudtrust/keycloak/export/ImportExportUtils.java:51-56 | the credential loop computes the specified outcome and restores the context realm |
| CredentialImport.ApplyOneEffect | src/main/java/io/cloudtrust/keycloak/export/ImportExportUtils.java:52-55 | one successful step changes only that user's credentials, appending its imported list |
| CredentialImport.AppliedKeepsProfiles | src/main/java/io/cloudtrust/keycloak/export/ImportExportUtils.java:51-56 | a successful loop keeps every user's id, username and tags, and every handled bundle user had an id and a list |
| CredentialImport.AppliedLeavesOthers | src/main/java/io/cloudtrust/keycloak/export/ImportExportUtils.java:51-56 | users with nothing to create are left as they were |
| CredentialImport.CredentialsRestored | src/main/java/io/cloudtrust/keycloak/export/ImportExportUtils.java:51-56 | with distinct ids each user gets exactly its own credentials, in order, after the ones it had |
| CredentialImport.ImportComposition | src/main/java/io/cloudtrust/keycloak/export/ImportExportUtils.java:51-64 | credentials then tags restored on freshly created users give every bundle user its own credentials and tags |
| CredentialImport.LegacyOutcome | src/main/java/io/cloudtrust/keycloak/export/ImportExportUtils.java:26-67 | definition of the whole import as a value: a null user list, the host's error, the first credential error, or the new realm with reattached users; `CredentialImport.ImportRealm` is proved to return exactly it |
| CredentialImport.LegacyOutcomeAfterHost | src/main/java/io/cloudtrust/keycloak/export/ImportExportUtils.java:48-64 | once the host has imported the detached bundle, the import fails exactly with the credential loop's error, or yields the new realm with the reattached users |
| CredentialImport.RestoreUsers | src/main/java/io/cloudtrust/keycloak/export/ImportExportUtils.java:50-64 | fails exactly when the credential loop fails, with its error; on success the new realm's users are the credential loop's result with the saved tags added back, each user imported as promised, and nothing else changes |
| CredentialImport.Detach | src/main/java/io/cloudtrust/keycloak/export/ImportExportUtils.java:30-41 | the detach loop saves and empties credentials and tags of every user |
| CredentialImport.DetachedUsersImported | src/main/java/io/cloudtrust/keycloak/export/ImportExportUtils.java:32-48 | the host creates detached users blank, and their ids are as distinct as the bundle's |
| CredentialImport.ImportRealm | src/main/java/io/cloudtrust/keycloak/export/ImportExportUtils.java:26-67 | the result is exactly `LegacyOutcome`: it fails iff the outcome does, with its error, and otherwise the store becomes it; a null user list and a taken name fail without change; on success the realm is appended, others unchanged, and each user holds its own credentials and tags; the context realm is restored |
| ConflictImport.Prepared | keycloak-export/src/main/java/io/cloudtrust/keycloak/export/ImportExportUtils.java:25-43 | skip iff the name exists under IGNORE_EXISTING; overwrite removes exactly the existing realm and, for the administration realm, clears all client links; otherwise nothing changes |
| ConflictImport.Outcome | keycloak-export/src/main/java/io/cloudtrust/keycloak/export/ImportExportUtils.java:24-71 | definition of the whole import as a value: skip, the conflict step, the host's import of the detached bundle, the reattached tags; `ConflictImport.ImportRealm` is proved to return exactly it |
| ConflictImport.OutcomeSkipsOrAppends | keycloak-export/src/main/java/io/cloudtrust/keycloak/export/ImportExportUtils.java:24-71 | the import is skipped exactly when the name exists under IGNORE_EXISTING; a performed import ends with the bundle's realm, under its name and id, last in the listing |
| ConflictImport.ClearAdminClients | keycloak-export/src/main/java/io/cloudtrust/keycloak/export/ImportExportUtils.java:35-40 | the loop leaves every realm without its management client |
| ConflictImport.ImportRealm | keycloak-export/src/main/java/io/cloudtrust/keycloak/export/ImportExportUtils.java:24-71 | the result and the new listing are the specified outcome: skip leaves the store unchanged, success appends the imported realm last |
| ConflictImport.ExistingWithoutStrategyConflicts | keycloak-export/src/main/java/io/cloudtrust/keycloak/export/ImportExportUtils.java:29-61 | with no strategy, an existing name reaches the host and fails as a duplicate |
| ConflictImport.OverwriteFreesName | keycloak-export/src/main/java/io/cloudtrust/keycloak/export/ImportExportUtils.java:33-42 | after the overwrite step no realm has the bundle's name any more |
| ConflictImport.DetachedBundleImported | keycloak-export/src/main/java/io/cloudtrust/keycloak/export/ImportExportUtils.java:47-61 | a detached bundle with a free name and id is accepted whatever tags it carried, and its users are created blank |
| ConflictImport.DetachedBundleAccepted | keycloak-export/src/main/java/io/cloudtrust/keycloak/export/ImportExportUtils.java:47-61 | the host accepts the detached bundle and appends its realm |
| ConflictImport.DetachedUsersBlank | keycloak-export/src/main/java/io/cloudtrust/keycloak/export/ImportExportUtils.java:50-61 | each detached user with an id is created with no tags and no credentials |
| ConflictImport.ReattachedUsers | keycloak-export/src/main/java/io/cloudtrust/keycloak/export/ImportExportUtils.java:63-68 | re-adding saved tags to blank users gives each user exactly its own tags |
| ConflictImport.FreshOutcome | keycloak-export/src/main/java/io/cloudtrust/keycloak/export/ImportExportUtils.java:24-71 | a bundle with a free name and id imports to the listing plus the new realm with reattached users |
| ConflictImport.TagsSurvive | keycloak-export/src/main/java/io/cloudtrust/keycloak/export/ImportExportUtils.java:24-71 | custom tags survive the import whatever they are: the realm is appended under its name and id, earlier realms are unchanged, and each user with an id holds its own tags verbatim, in order, repeats dropped |
| BundleReader.LeadingObjects | keycloak-export/src/main/java/io/cloudtrust/keycloak/export/SingleFileImportProvider.java:105-109 | the consecutive objects at the front, stopping at the first non-object |
| BundleReader.Objects | keycloak-export/src/main/java/io/cloudtrust/keycloak/export/SingleFileImportProvider.java:95-118 | definition of what the parser returns per leading token; `BundleReader.ArrayObjects`, `BundleReader.SingleOrNothing` and `BundleReader.ObjectsFromStream` state its properties |
| BundleReader.ObjectsFromStream | keycloak-export/src/main/java/io/cloudtrust/keycloak/export/SingleFileImportProvider.java:95-118 | nothing is invented: every realm returned was an object token of the stream, and there are no more realms than tokens |
| BundleReader.ArrayObjects | keycloak-export/src/main/java/io/cloudtrust/keycloak/export/SingleFileImportProvider.java:101-109 | a leading array yields its consecutive objects in order |
| BundleReader.SingleOrNothing | keycloak-export/src/main/java/io/cloudtrust/keycloak/export/SingleFileImportProvider.java:110-114 | a leading object yields itself; an empty stream or any other start yields nothing |
| BundleReader.GetObjectsFromStream | keycloak-export/src/main/java/io/cloudtrust/keycloak/export/SingleFileImportProvider.java:95-118 | the cursor loop returns exactly the specified objects |
| BundleReader.ReadArrayObjects | keycloak-export/src/main/java/io/cloudtrust/keycloak/export/SingleFileImportProvider.java:101-109 | the array loop reads exactly the consecutive objects after the opening token, in order |
| BundleReader.FirstNamed | keycloak-export/src/main/java/io/cloudtrust/keycloak/export/SingleFileImportProvider.java:84 | the first representation named after the administration realm, or none has that name |
| BundleReader.Others | keycloak-export/src/main/java/io/cloudtrust/keycloak/export/SingleFileImportProvider.java:48 | every position except the master's, ascending |
| BundleReader.ImportOrder | keycloak-export/src/main/java/io/cloudtrust/keycloak/export/SingleFileImportProvider.java:44-48 | definition of the import order; `BundleReader.ImportOrderProperties` proves each bundle is imported once, the master first, the others in file order |
| BundleReader.ImportOrderProperties | keycloak-export/src/main/java/io/cloudtrust/keycloak/export/SingleFileImportProvider.java:44-48 | every bundle is imported exactly once, the master first, the others in file order |
| BundleReader.MasterFirstOrder | keycloak-export/src/main/java/io/cloudtrust/keycloak/export/SingleFileImportProvider.java:44-48 | with a master, the order is the master followed by the other positions, every bundle exactly once |
| BundleReader.SequenceStep | keycloak-export/src/main/java/io/cloudtrust/keycloak/export/SingleFileImportProvider.java:43-48 | importing one more bundle applies its outcome, a skip leaving the listing as it was |
| BundleReader.SequenceFailureSticks | keycloak-export/src/main/java/io/cloudtrust/keycloak/export/SingleFileImportProvider.java:43-59 | once a bundle fails, the whole job fails with that error |
| BundleReader.PostPass | keycloak-export/src/main/java/io/cloudtrust/keycloak/export/SingleFileImportProvider.java:50-58 | afterwards every realm has a management client; realms that had one are untouched; only the client changes |
| BundleReader.PostPassIdempotent | keycloak-export/src/main/java/io/cloudtrust/keycloak/export/SingleFileImportProvider.java:50-58 | a second post-pass changes nothing |
| BundleReader.SetUpMissingClients | keycloak-export/src/main/java/io/cloudtrust/keycloak/export/SingleFileImportProvider.java:52-57 | the post-pass loop computes the specified post-pass |
| BundleReader.ImportAll | keycloak-export/src/main/java/io/cloudtrust/keycloak/export/SingleFileImportProvider.java:43-49 | the job's listing is the sequence outcome; on failure the transaction rolls the store back |
| BundleReader.ImportNext | keycloak-export/src/main/java/io/cloudtrust/keycloak/export/SingleFileImportProvider.java:46-48 | importing one more bundle of the order advances the sequence outcome by exactly that bundle, or yields its error |
| BundleReader.ModelOutcome | keycloak-export/src/main/java/io/cloudtrust/keycloak/export/SingleFileImportProvider.java:39-60 | after a successful file holding the administration realm every realm has a management client; an empty file changes nothing |
| BundleReader.SingleFileImportProvider.constructor | keycloak-export/src/main/java/io/cloudtrust/keycloak/export/SingleFileImportProvider.java:34-36 | a provider starts with no cached representations |
| BundleReader.SingleFileImportProvider.CheckRealmReps | keycloak-export/src/main/java/io/cloudtrust/keycloak/export/SingleFileImportProvider.java:87-93 | the file is parsed at most once; a cached result is kept |
| BundleReader.SingleFileImportProvider.GetMasterRealm | keycloak-export/src/main/java/io/cloudtrust/keycloak/export/SingleFileImportProvider.java:82-85 | returns the first bundle named after the administration realm |
| BundleReader.SingleFileImportProvider.IsMasterRealmExported | keycloak-export/src/main/java/io/cloudtrust/keycloak/export/SingleFileImportProvider.java:69-71 | true iff some bundle is named after the administration realm |
| BundleReader.SingleFileImportProvider.ImportModel | keycloak-export/src/main/java/io/cloudtrust/keycloak/export/SingleFileImportProvider.java:39-60 | the store becomes the specified outcome of the whole file, or is unchanged on failure |
| BundleReader.SingleFileImportProvider.ImportRealm | keycloak-export/src/main/java/io/cloudtrust/keycloak/export/SingleFileImportProvider.java:63-66 | the realm name is ignored: the effect is that of importing the whole file |
| ExportAssembler.LastWithId | src/main/java/io/cloudtrust/keycloak/export/ExportResourceProvider.java:94-97 | the last exported position holding an id, or none holds it |
| ExportAssembler.TableIsLastWins | src/main/java/io/cloudtrust/keycloak/export/ExportResourceProvider.java:94-97 | the lookup map holds exactly the exported ids, each mapped to its last holder |
| ExportAssembler.WrittenTargets | src/main/java/io/cloudtrust/keycloak/export/ExportResourceProvider.java:99-111 | only exported users found by a listed id are written, each with exactly that listed user's credentials |
| ExportAssembler.ExportAllImports | src/main/java/io/cloudtrust/keycloak/export/ExportResourceProvider.java:101-106 | every entry of an exported list imports back to its stored credential, config and migrated algorithm aside |
| ExportAssembler.CorrectedCredentials | src/main/java/io/cloudtrust/keycloak/export/ExportResourceProvider.java:93-112 | only credentials change; the found user gets exactly its stored credentials, in order; others are unchanged |
| ExportAssembler.CorrectedStep | src/main/java/io/cloudtrust/keycloak/export/ExportResourceProvider.java:107-110 | one more listed user rewrites at most its exported user |
| ExportAssembler.ExportStored | src/main/java/io/cloudtrust/keycloak/export/ExportResourceProvider.java:101-106 | the rebuilt list has one exported entry per stored credential, in order |
| ExportAssembler.SetCorrectCredentials | src/main/java/io/cloudtrust/keycloak/export/ExportResourceProvider.java:93-112 | the array of exported users becomes the corrected users |
| ExportAssembler.ExportRealm | src/main/java/io/cloudtrust/keycloak/export/ExportResourceProvider.java:64-85 | succeeds iff the four-way gate holds, else forbidden; the result is the export with corrected users when it has users |
| Keycloak.ExportAllowed | keycloak-export/src/main/java/io/cloudtrust/keycloak/export/ExportResourceProvider.java:88-90 | definition of the four-way export gate of both export endpoints; `ExportAssembler.ExportRealm` and `ExportAssembler.ExportCurrentRealm` succeed only when it holds, and `Endpoints.ExportGateStricter` relates it to `isMasterAdmin` |
| ExportAssembler.ExportCurrentKeepsAll | keycloak-export/src/main/java/io/cloudtrust/keycloak/export/ExportResourceProvider.java:125-134 | the current mapper is injective and keeps the id and secret data: nothing is dropped |
| ExportAssembler.ExportCurrent | keycloak-export/src/main/java/io/cloudtrust/keycloak/export/ExportResourceProvider.java:125-134 | definition of the current `exportCredential`; `ExportAssembler.ExportCurrentKeepsAll` proves it injective and keeping the id and secret data |
| ExportAssembler.CollectById | keycloak-export/src/main/java/io/cloudtrust/keycloak/export/ExportResourceProvider.java:111 | `toMap` fails with the duplicate-key error iff two exported users share an id (two nulls included), else builds the table |
| ExportAssembler.CorrectedCurrentStep | keycloak-export/src/main/java/io/cloudtrust/keycloak/export/ExportResourceProvider.java:113-122 | one more listed user rewrites at most its exported user |
| ExportAssembler.Overwrite | keycloak-export/src/main/java/io/cloudtrust/keycloak/export/ExportResourceProvider.java:114-121 | a listed user found in the table has its exported user's credentials replaced; otherwise nothing changes |
| ExportAssembler.SetCorrectCredentialsAsWritten | keycloak-export/src/main/java/io/cloudtrust/keycloak/export/ExportResourceProvider.java:109-123 | as written, no exported user changes; it fails iff ids repeat |
| ExportAssembler.SetCorrectCredentialsCurrent | keycloak-export/src/main/java/io/cloudtrust/keycloak/export/ExportResourceProvider.java:109-123 | with the collected table, users become the corrected users; fails without change iff ids repeat |
| ExportAssembler.CorrectedCurrentCredentials | keycloak-export/src/main/java/io/cloudtrust/keycloak/export/ExportResourceProvider.java:109-123 | only credentials change; each exported user found in the listing gets exactly its stored credentials; others are unchanged |
| ExportAssembler.AsWrittenDropsCredentials | keycloak-export/src/main/java/io/cloudtrust/keycloak/export/ExportResourceProvider.java:110-114 | one user and one stored credential: as written the user keeps no credentials, as intended it gets the credential with its id |
| ExportAssembler.ExportCurrentRealm | keycloak-export/src/main/java/io/cloudtrust/keycloak/export/ExportResourceProvider.java:79-100 | as written: forbidden unless the four-way gate holds; otherwise the host's export comes back unchanged, credentials included, or fails with the duplicate-key error iff two exported users share an id |
| ExportAssembler.ExportCurrentRealmIntended | keycloak-export/src/main/java/io/cloudtrust/keycloak/export/ExportResourceProvider.java:79-123 | as intended: the same gate and errors, and on success every exported user found in the store carries exactly its stored credentials |
| Endpoints.LastIndexOf | keycloak-export/src/main/java/io/cloudtrust/keycloak/export/ExportResourceProvider.java:156 | the last position holding the character, or -1 |
| Endpoints.IssuerRealmName | keycloak-export/src/main/java/io/cloudtrust/keycloak/export/ExportResourceProvider.java:156 | the realm name is the longest suffix of the issuer without '/', i.e. all after the last '/' or the whole issuer |
| Endpoints.IssuerOfRealmUrl | src/main/java/io/cloudtrust/keycloak/importexport/ImportExportResourceProvider.java:110 | an issuer ending in `/<name>` names `name`; an issuer without '/' names itself |
| Endpoints.TokenRealm | keycloak-export/src/main/java/io/cloudtrust/keycloak/export/ExportResourceProvider.java:156-161 | the token's realm is found by that name, or the token is rejected |
| Endpoints.IsMasterAdmin | src/main/java/io/cloudtrust/keycloak/importexport/ImportExportResourceProvider.java:146-149 | definition of `isMasterAdmin`; `Endpoints.ExportGateStricter` proves the export gate strictly stronger, and `Endpoints.CanImportRealm` uses it for existing realms |
| Endpoints.ExportGateStricter | src/main/java/io/cloudtrust/keycloak/importexport/ImportExportResourceProvider.java:146-149 | the four-way export gate implies `isMasterAdmin`, and a master admin who cannot manage the realm shows the converse fails |
| Endpoints.CanImportRealm | src/main/java/io/cloudtrust/keycloak/importexport/ImportExportResourceProvider.java:132-144 | any import needs the administration realm; an existing realm needs the admin role and its own URL; a new one needs create-realm; a master admin with create-realm on the realm's URL may always import |
| Endpoints.NewRealmIgnoresUrl | src/main/java/io/cloudtrust/keycloak/importexport/ImportExportResourceProvider.java:138-142 | creating a new realm does not depend on the URL realm |
| Endpoints.ExportDecision | src/main/java/io/cloudtrust/keycloak/importexport/ImportExportResourceProvider.java:57-70 | a missing URL realm is not found whatever the token; then a rejected token; the export is allowed iff the caller is master admin |
| Endpoints.ImportDecision | src/main/java/io/cloudtrust/keycloak/importexport/ImportExportResourceProvider.java:76-87 | not found, then unauthorized, then forbidden; the host import runs with the configured strategy iff `canImportRealm` holds |
| Endpoints.GrantPermissionsToRealmCreator | keycloak-export/src/main/java/io/cloudtrust/keycloak/export/ExportResourceProvider.java:208-219 | an admin gets nothing; anyone else gets every realm role of the new realm's client, in order; a missing client fails before any grant |
| Endpoints.Respond | keycloak-export/src/main/java/io/cloudtrust/keycloak/export/ExportResourceProvider.java:198-205 | duplicate becomes a conflict; a policy failure marks an active transaction rollback-only and becomes a bad request; other errors propagate |
| Endpoints.CreatedOutcome | keycloak-export/src/main/java/io/cloudtrust/keycloak/export/ExportResourceProvider.java:191-194 | with no strategy a successful import appends the realm under the requested name with its management client |
| Endpoints.ImportRealm | keycloak-export/src/main/java/io/cloudtrust/keycloak/export/ExportResourceProvider.java:183-206 | unauthorized, then forbidden without create-realm; otherwise the import's outcome with mapped errors; success answers Created at the realm's URL and grants the creator the realm roles unless admin |

## Left out

- JSON tokenisation, the ObjectMapper and file streams: the reader works on an abstract token sequence where an object is one token. Malformed JSON and I/O errors are not modelled.
- Base64: a stand-in codec with one character per byte. Its decoding inverts its encoding and it can refuse text; the real alphabet and padding are not modelled.
- Bearer-token parsing, JWS decoding and the host's token check: an authenticated caller is an `AdminAuth` value, and a rejected token is `None`. `hasRole` and `hasRealmRole` are read as membership in the caller's set of effective realm roles.
- Keycloak internals are stand-ins with small contracts:
  - `RealmManager.importRealm` (`Directory.HostImport`) covers name and id conflicts, duplicate user ids and the closed required-action enumeration. Clients, roles, groups and other realm content are not modelled.
  - `ExportUtils.exportRealm` is an input: the structural export.
  - `userCredentialManager().updateCredential` is a password-policy predicate per realm plus the host's hashing.
- HashMap iteration order: the maps keyed by user representation are iterated in bundle order.
- Users without an id get a server-assigned id that the model does not track, so nothing is stated about them after an import.
- Integers are unbounded: Java's 32-bit `int` fields of credentials are not wrapped.
- The in-place mutation of the caller's bundle objects (`setRequiredActions`, `setCredentials`) is modelled as cleared copies. That the caller's own objects are left emptied after an import is not captured.
- `skipUserDependent` is always `false` at the modelled call sites and is not a parameter.
- Current module: the bundle's credentials go straight into the host's import, and the stand-in host creates users without credentials. Credentials in that variant are not modelled.
- `ImportExportResourceProvider`: the host's `ImportUtils.importRealm` and `ExportUtils.exportRealm` are not modelled. The decisions return which call runs and with which configured strategy.
- `requireCreateRealm` is the boolean `mayCreateRealm`. Its permission internals are the host's.
- Logging, `close`, `getResource`, and the factory wiring of the single-file provider are not modelled.
- ConflictImport.ImportRealm: states nothing about the store after an error, because the enclosing transaction rolls it back.
- Endpoints.ImportRealm: states nothing about the store after an import error, for the same reason.
- Endpoints.ImportRealm: does not model a failed role grant, because a newly imported realm always has its management client (`Endpoints.CreatedOutcome`).
- Directory.RealmIdOf: a bundle without an id gets its name as its id, where the host generates a fresh one. For such bundles the model's id conflicts (`Directory.HostImport`) and the administration-realm test of the overwrite step (`ConflictImport.Prepared`) can fire on a realm whose id equals that name, where the host's would not.
- ExportAssembler.ExportRealm and ExportAssembler.ExportCurrentRealm take the already authenticated caller. The realm taken from the request context and the admin realm are compared by name.

## Findings

| source | as written | input that shows it | evidently intended | confidence | as-written member | corrected member |
|---|---|---|---|---|---|---|
| keycloak-export/src/main/java/io/cloudtrust/keycloak/export/ExportResourceProvider.java:110-111 | `userRepMap` is created empty. The map built by `collect(Collectors.toMap(...))` is discarded, so every lookup misses and no exported user's credentials are rewritten. | One exported user with id `u1` and no credentials; the store lists `u1` with one credential `c1`. | The collected map is the lookup table, so `u1` is exported with `[c1]`, its id included. | high; not executed | ExportAssembler.SetCorrectCredentialsAsWritten, ExportAssembler.AsWrittenDropsCredentials, ExportAssembler.ExportCurrentRealm | ExportAssembler.SetCorrectCredentialsCurrent, ExportAssembler.CorrectedCurrentCredentials, ExportAssembler.ExportCurrentRealmIntended |
