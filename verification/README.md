# TekDocs verification model

A Dafny model of the parts of TekDocs whose correctness rests on state, order or interleaving, with proofs about every
input, every run or every reachable state. `dafny verify dfyconfig.toml` checks the whole project.

Code that updates records in place is a class whose methods change its fields; each method is proved equal to a function
on the old state, and the lemmas are about those functions. Modules ending in `Runs` and `Proofs` are about whole runs;
those ending in `Effects` are about single decisions and operations, stated on the stored rows without naming the functions
that compute them. Most of the methods are a step written as assignments; the work in place that needs a proof of its own is
in the loops and in the transactions that raise and put everything back. Code made of expressions is functions. A run is a
sequence of steps, each one transaction, in any order.

| files | what they model |
|---|---|
| `Permissions`, `AccessTables`, `Policy` | the permission catalogue and role tables, the stored rows, the pointwise decision and the set query over them |
| `AccessSteps`, `AccessStore`, `AccessProofs`, `AccessEffects` | the operations that write those rows, as steps and in place, what every run of them keeps, and what each decision and operation comes to on the stored rows |
| `Invitations`, `InvitationStore`, `InvitationRuns`, `InvitationEffects` | invitations with rotating tokens and delivery outside the transaction |
| `ApiTokens`, `TokenAuthority` | the token store as a refinement of "record to current plaintext", and what an issued token can exercise |
| `MediaPreflight`, `Streams` | the one-pass check of a decrypted media archive |
| `RecoveryArchive` | the encrypted artifact and its atomic restore |
| `SpreadsheetCells`, `AssetRows`, `AssetPlans`, `AssetImports`, `AssetImportProofs`, `AssetWorkspace`, `AssetExport` | asset CSV: escaping, parsing, preview, apply, export |
| `ReleaseFinalization`, `ReleaseRuns`, `ReleaseEffects` | release aliases in the registry and tags in Git, by jobs that may stop at any command |
| `Catalog`, `CatalogStore`, `CatalogRuns`, `CatalogEffects` | products, definition versions and model revisions |
| `CertificateNames`, `ScanFraming`, `Diagnostics` | wildcard names, antivirus stream framing, bounded diagnostics buffers |
| `Keys`, `Text`, `Wrappers` | shared helpers |

## What turned out not to hold as stated

- The decision and the query disagree for a client-portal principal whose permissions reach its own organization: the
  decision is always false (`policy.py:544`), the query returns the organization (`policy.py:646-649`).
  `Policy.ReadersAgreeExactlyWhen` gives the exact condition, `AccessProofs.ReachablePortalReadersDisagree` a case in a
  state reached from the empty database.
- Importing an applied CSV file again is not always a run of skips: a creation whose values all look like defaults writes
  no details (`asset_csv.py:414-421`), so free text equal to a default state is lost.
  `AssetImportProofs.ReimportSkipsExactly` gives the exact condition, `DefaultLookingTextIsLost` a concrete case.
- A preview may plan an update of disposed hardware, which the apply then refuses as a whole
  (`AssetImportProofs.DisposedUpdateIsPlannedThenRefused`); `ExecutesThePlan` says exactly which rows of an accepted plan
  are refused, and that the unique identifiers are never a reason.
- Decoding does not undo spreadsheet escaping for text that is itself an apostrophe and a formula
  (`SpreadsheetCells.DecodeUndoesSafeExactly`), so exporting and importing an asset so named renames it
  (`AssetExport.QuotedNameIsLost`); `AssetExport.ExportReadsBackExactly` gives the exact condition for one asset and
  `ExportPreviewsAsSkipsExactly` for a whole workspace, where one disposed hardware asset is enough for an error.
- An alias is checked only after it has been pushed, so a loaded image that pushes to another digest moves the alias
  before the run fails (`ReleaseRuns.AliasMoves`); `ReleaseRuns.AliasesStayExactlyWhen` gives the exact condition.
- A role is stored with an empty name if and only if the name given to its service function is nothing but blanks
  (`AccessProofs.EmptyNameExactlyWhenBlank`, with `BlankRoleNameIsStored` as the case that is accepted); the service
  functions for collections never store one. Only a direct call of the service function gets there: the two views that call
  it trim the name and refuse an empty one first (`access_serializers.py:96`, `103`).
- Marking an expired invitation inside a resend or a revoke is undone by the exception raised in the same transaction
  (`invitations.py:190-193`, `205-208`); only acceptance records the expiry (`InvitationRuns.OnlyAcceptanceRecordsExpiry`).

## Model

Where the row of a class method already says what an operation leaves behind, the lemma that repeats it on the stored fields
(`AccessEffects.RoleArchivedExactly`, `ApiTokens.RotatedLeaves`, `InvitationEffects.ResentExactly` and the like) has no row.

| member | source | states |
|---|---|---|
| Permissions.CeilingsExcludeReserved | backend/apps/accounts/policy.py:273-402 | no custom role, no built-in role but the owner's, and (one read apart) no token can carry a permission reserved from administrators |
| Permissions.RolesFormALadder | backend/apps/accounts/policy.py:231-402 | read-only, contributor, technician, administrator and owner each hold what the one before does; reading needs no second factor, and every change a technician may make needs one |
| AccessTables.MembershipOfIsTheOne | backend/apps/accounts/models.py:215-215 | with one membership per tenant and user, looking a user up finds that one |
| Policy.RequirePermission | backend/apps/accounts/policy.py:555-572 | succeeds exactly when the decision allows the permission tenant-wide and, where the permission needs it, a second factor is present |
| Policy.DecisionReachesJoins | backend/apps/accounts/policy.py:661-690 | whatever the pointwise custom-role test grants in an organization, one of the query's joins reaches |
| Policy.JoinsReachDecision | backend/apps/accounts/policy.py:617-645 | whatever the query's joins reach, the pointwise test grants, because a target matches its role's scope and tenants agree |
| Policy.StaffJoinsAgree | backend/apps/accounts/policy.py:496-515 | the three ways of asking whether a user is staffed on an organization agree |
| Policy.QueryMatchesDecision | backend/apps/accounts/policy.py:617-658 | over linked tables the query admits an organization exactly when the decision holds there; for a portal principal, exactly its own organization when its permissions reach it |
| Policy.ReadersAgreeExactlyWhen | backend/apps/accounts/policy.py:538-552 | the readers agree on every organization if and only if the principal is not a portal principal that the query would serve |
| Policy.PortalReadersDisagree | backend/apps/accounts/policy.py:646-649 | a client administrator for whom the query returns an organization the decision refuses |
| Policy.TokenNarrowsExactly | backend/apps/accounts/policy.py:702-715 | carrying a token is the same decision without it, and the token lists the permission, and its workspace is the requested one |
| AccessEffects.MemberDecision | backend/apps/accounts/policy.py:496-552 | without a token, a member is allowed something exactly when its stored row is not a client's, it reaches the place (by tenant-wide scope for the tenant; by a staff row, or tenant-wide scope and an open access mode, for a live organization), and its role or an assignment covering the place carries the permission |
| AccessEffects.AssignedOnlyNeedsStaffRow | backend/apps/accounts/policy.py:447-481 | a member on assigned organizations only is allowed nothing tenant-wide, and nothing in an organization without a staff row of its own |
| AccessEffects.TenantWideByRoleOrTenantRole | backend/apps/accounts/policy.py:661-700 | a tenant-wide member is allowed something tenant-wide exactly by its stored role or a live tenant role assigned to it |
| AccessEffects.StrangersAreRefused | backend/apps/accounts/policy.py:447-481 | nobody but the owner and members of the installation's tenant is allowed anything |
| AccessEffects.RefusedBecause | backend/apps/accounts/policy.py:555-572 | no installation, no membership, or only the second factor missing: each is the answer exactly when it is the case |
| AccessEffects.PortalQueryReturns | backend/apps/accounts/policy.py:617-658 | the query returns to a client exactly its own live organization, when its role or a covering assignment carries the permission |
| AccessStore.Store.BootstrapOwner | backend/apps/accounts/bootstrap.py:27-68 | the installation is claimed once, with its owner's account and membership; otherwise nothing changes |
| AccessStore.Store.CreateCustomRole | backend/apps/accounts/custom_roles.py:65-98 | only for a permitted actor, delegable permissions and a name of 1 to 80 characters that is free once collapsed; then exactly one role row is added; like every operation of the store, it keeps the tables consistent |
| AccessStore.Store.UpdateCustomRole | backend/apps/accounts/custom_roles.py:112-142 | name and permissions of one active role are replaced after the same validation |
| AccessStore.Store.ArchiveCustomRole | backend/apps/accounts/custom_roles.py:145-158 | one active role is archived |
| AccessStore.Store.CreateScopedAssignment | backend/apps/accounts/custom_roles.py:161-224 | an assignment is added only with a target that matches the role's scope, in one tenant, never to the owner and never twice |
| AccessStore.Store.RemoveScopedAssignment | backend/apps/accounts/custom_roles.py:227-245 | exactly the named assignment of the tenant is removed |
| AccessStore.Store.AssignBuiltInRole | backend/apps/accounts/access_control.py:74-108 | a tenant role replaces another on a staff membership that is not the owner's |
| AccessStore.Store.AssignScope | backend/apps/accounts/access_control.py:111-145 | the workspace scope of a staff membership changes, nothing else |
| AccessStore.Store.ChangeOrganizationAccessMode | backend/apps/accounts/access_control.py:172-199 | the access mode of one live organization changes |
| AccessStore.Store.AssignOrganizationStaff | backend/apps/accounts/access_control.py:202-235 | one staff row is added, once |
| AccessStore.Store.RemoveOrganizationStaff | backend/apps/accounts/access_control.py:238-262 | one staff row is removed |
| AccessStore.Store.ReplaceOrganizations | backend/apps/accounts/access_collections.py:61-90 | a collection's edges become exactly the selected live organizations; other collections keep theirs |
| AccessStore.Store.CreateAccessCollection | backend/apps/accounts/access_collections.py:93-130 | a collection with a free name and its edges are added together or not at all |
| AccessStore.Store.UpdateAccessCollection | backend/apps/accounts/access_collections.py:133-168 | name and edges of an active collection are replaced together or not at all |
| AccessStore.Store.ArchiveAccessCollection | backend/apps/accounts/access_collections.py:171-184 | one active collection is archived |
| AccessEffects.RoleCreatedExactly | backend/apps/accounts/custom_roles.py:65-98 | by the rows alone: when a role is created, and the one row that is added |
| AccessEffects.RoleUpdatedExactly | backend/apps/accounts/custom_roles.py:112-142 | when a role is updated, and its new name and permissions |
| AccessEffects.RoleAssignedExactly | backend/apps/accounts/custom_roles.py:161-224 | when a role is assigned (a live role and target of one kind, never to the owner, never twice), and the row added |
| AccessEffects.BuiltInRoleAssignedExactly | backend/apps/accounts/access_control.py:74-108 | when a built-in role is assigned (never one's own, never the owner's or a client's), and the role stored |
| AccessEffects.ScopeAssignedExactly | backend/apps/accounts/access_control.py:111-145 | when a workspace scope is assigned, and that the stored scope is the requested one |
| AccessEffects.StaffedExactlyOnce | backend/apps/accounts/access_control.py:202-262 | when a member is staffed or taken off, and the one staff row added or removed |
| AccessEffects.CollectionCreatedExactly | backend/apps/accounts/access_collections.py:93-130 | when a collection is created, its row, and that its edges are exactly the organizations asked for |
| AccessEffects.CollectionUpdatedExactly | backend/apps/accounts/access_collections.py:133-168 | when a collection is updated, its new name and its new edges, others untouched |
| AccessEffects.ServiceSubjectAddedExactly | backend/apps/accounts/api_tokens.py:151-177 | when the principal of a service token is added, and its account, membership and staff row |
| AccessEffects.BootstrappedExactly | backend/apps/accounts/bootstrap.py:27-68 | when the installation is claimed, and its owner, account and membership |
| AccessEffects.JoinedExactly | backend/apps/accounts/models.py:191-240 | which membership rows may join, by the table's check constraints, and what joining stores |
| AccessEffects.OnlySuccessChanges | backend/apps/accounts/access_control.py:74-262 | an operation that answers anything but success has changed nothing |
| AccessProofs.RunKeepsConsistent | backend/apps/accounts/models.py:191-522 | every run keeps rows linked within one tenant, targets matching role scopes, one membership per user, and custom roles within the assignable ceiling |
| AccessProofs.ReachableReadersAgree | backend/apps/accounts/policy.py:617-690 | in every state reachable from the empty database, the query admits an organization to an MSP-surface principal exactly when the decision does |
| AccessProofs.ReachablePortalReadersDisagree | backend/apps/accounts/policy.py:646-649 | after a bootstrap, an organization and an accepted client invitation, the query returns the client administrator's organization and the decision refuses it |
| AccessProofs.EmptyNameExactlyWhenBlank | backend/apps/accounts/custom_roles.py:65-142 | a role created or updated is stored with an empty name if and only if the name given is nothing but blanks; a collection never is |
| Text.CollapsingKeepsLetters | backend/apps/accounts/models.py:410-413 | collapsing a name keeps its characters that are not blank, in order, with single spaces between them |
| AccessProofs.BlankRoleNameIsStored | backend/apps/accounts/models.py:410-413 | every blank-only name of 1 to 80 characters is accepted by the role function when its key is free, and refused by the collection function |
| AccessProofs.ReservedStaysWithOwner | backend/apps/accounts/policy.py:273-315 | in every reachable state whoever holds a permission reserved from administrators is the installation owner |
| AccessProofs.OwnerIsNeverLockedOut | backend/apps/accounts/policy.py:447-481 | (immediate from the tables) the owner holds every permission tenant-wide, and in an organization exactly while it is live |
| AccessProofs.RefusedWithoutOwner | backend/apps/accounts/custom_roles.py:65-98 | in a consistent state every guarded access operation by anybody but the owner is denied and changes nothing |
| AccessProofs.OthersLeaveDecisions | backend/apps/accounts/access_control.py:74-262 | a step by anybody but the owner leaves every existing member's decisions as they were |
| AccessProofs.RunWithoutOwnerLeavesDecisions | backend/apps/accounts/access_control.py:74-262 | the same over any run in which the owner takes no part |
| InvitationStore.Store.IssueInvitation | backend/apps/accounts/invitations.py:126-178 | one pending row is added and an expired one of the same address is closed, or, on any conflict, nothing changes; like every operation of the store, it keeps the account of tokens, redemptions and deliveries in step with the tables and the invariant of every run |
| InvitationStore.Store.ResendInvitation | backend/apps/accounts/invitations.py:181-199 | an open invitation gets a new digest and expiry and one more attempt; anything else is refused and undone |
| InvitationStore.Store.RevokeInvitation | backend/apps/accounts/invitations.py:202-214 | an open invitation is revoked and loses its digest; anything else is refused and undone |
| InvitationStore.Store.AcceptInvitation | backend/apps/accounts/invitations.py:217-289 | account, membership and accepted row appear together; an expired row is marked even though acceptance fails |
| InvitationStore.Store.RecordDelivered | backend/apps/accounts/invitations.py:97-123 | a finished delivery counts one send and touches only delivery fields |
| InvitationStore.Store.RecordDeliveryFailed | backend/apps/accounts/invitations.py:97-123 | a failed delivery records its time and nothing else |
| InvitationRuns.RunKeepsInvariant | backend/apps/accounts/models.py:110-170 | in every interleaving a row is pending exactly while its digest is non-empty, an address has at most one pending row per tenant, and digests, redemptions, members and delivery counts stay in step |
| InvitationRuns.FinalStatesAreKept | backend/apps/accounts/invitations.py:90-94 | no step takes a row out of accepted, revoked or expired, nor changes its digest or expiry |
| InvitationRuns.RunKeepsFinalStates | backend/apps/accounts/invitations.py:126-289 | the same over any run |
| InvitationRuns.LateDeliveryIsInert | backend/apps/accounts/invitations.py:97-123 | a delivery recorded however late changes no row's state, digest or expiry, and no account or membership |
| InvitationRuns.SendsAreCounted | backend/apps/accounts/invitations.py:155-165 | in every reachable state sends are the completed deliveries, and completed plus failed plus in flight are the attempts |
| InvitationRuns.RedeemedExactlyWhen | backend/apps/accounts/invitations.py:217-289 | a token is redeemed if and only if it is the newest token of a pending, unexpired invitation to an unused address and the password is accepted |
| InvitationRuns.RedeemedAtMostOnce | backend/apps/accounts/invitations.py:217-289 | after a redemption the same token is refused in every later state |
| InvitationRuns.ResendSupersedes | backend/apps/accounts/invitations.py:181-199 | a resend makes every earlier token of the invitation worthless and the new one live |
| InvitationRuns.DeadStaysDead | backend/apps/accounts/models.py:182-189 | a token that is no longer its invitation's live token never becomes so again |
| InvitationRuns.MembershipsAreAcceptedRows | backend/apps/accounts/invitations.py:256-285 | in every reachable state the memberships acceptance created correspond one for one to the accepted rows, with their role, organization and scope |
| InvitationRuns.OnlyAcceptanceRecordsExpiry | backend/apps/accounts/invitations.py:190-208 | resending or revoking an expired pending row changes nothing at all; redeeming it marks it expired |
| InvitationEffects.RevokedExactly | backend/apps/accounts/invitations.py:202-214 | a revocation answers so exactly for a pending, unexpired row, and leaves it revoked, dated and without digest |
| InvitationEffects.RevokedIsNeverRedeemed | backend/apps/accounts/invitations.py:202-289 | no token ever issued for a revoked invitation is redeemed in any later state |
| InvitationEffects.IssuedExactly | backend/apps/accounts/invitations.py:126-178 | when an invitation is issued, the new row field by field, and that expired rows of the address are closed |
| InvitationEffects.RedeemedLeaves | backend/apps/accounts/invitations.py:256-285 | a redemption stores the account, a membership with the invited tenant, role, organization and scope, and the accepted row |
| InvitationEffects.NotRedeemedLeaves | backend/apps/accounts/invitations.py:217-255 | an acceptance that fails changes at most the state of its own expired row; when it is the password it complains of |
| InvitationEffects.TokensAreUrlSafe | backend/apps/accounts/invitations.py:218-219 | the strings that are looked up as tokens, character by character |
| InvitationEffects.ReachableRowsAreSound | backend/apps/accounts/models.py:110-170 | in every reachable state each row satisfies the table's check constraints, written out on its fields |
| ApiTokens.ParseInvertsPrint | backend/apps/accounts/api_tokens.py:41-41 | parsing yields marker, prefix and secret exactly of the strings printed from valid ones, underscores in the secret included |
| ApiTokens.ParsesExactly | backend/apps/accounts/api_tokens.py:41-41 | the strings that parse, character by character |
| ApiTokens.Store.Issue | backend/apps/accounts/api_tokens.py:179-238 | one locked record is added under fresh material and the plaintext returned is its printed form |
| ApiTokens.Store.Rotate | backend/apps/accounts/api_tokens.py:274-298 | an unrevoked record gets new material, the next generation and a new expiry; a revoked one is refused |
| ApiTokens.Store.Revoke | backend/apps/accounts/api_tokens.py:301-318 | revokes once, and deactivates the subject of a service token |
| ApiTokens.Store.AuthenticateBearer | backend/apps/accounts/api_tokens.py:321-350 | finds the record a string authenticates and touches at most its last use |
| ApiTokens.StoreRefinesCurrentPlaintexts | backend/apps/accounts/api_tokens.py:321-350 | after any run a string authenticates a record exactly when it is its most recently issued plaintext and the record is locked, unrevoked, unexpired and has an active subject |
| ApiTokens.AuthenticatesExactly | backend/apps/accounts/api_tokens.py:321-350 | a string authenticates a record exactly when it is its printed form and the stored record is unrevoked, unexpired and of an active subject |
| ApiTokens.FreshTokenAuthenticates | backend/apps/accounts/api_tokens.py:179-238 | a token just issued authenticates its record until it expires, if its subject is active, as a service token's is |
| ApiTokens.RotationRetiresPlaintext | backend/apps/accounts/api_tokens.py:274-298 | once rotated away, a plaintext authenticates nothing in any later state |
| ApiTokens.RevocationIsFinal | backend/apps/accounts/api_tokens.py:301-318 | no string authenticates a revoked record again |
| ApiTokens.RevokedNeverAuthenticates | backend/apps/accounts/api_tokens.py:301-318 | once a record of either kind is revoked, no string authenticates it in any later state |
| ApiTokens.RevokedServiceSilencesSubject | backend/apps/accounts/api_tokens.py:301-318 | after a service token is revoked no record of its subject authenticates until the subject is activated again |
| ApiTokens.RevocationSparesOthers | backend/apps/accounts/api_tokens.py:301-318 | every other record stays as it was and is honoured as before, unless it shares the subject of a service token |
| ApiTokens.UseLeaves | backend/apps/accounts/api_tokens.py:321-350 | a use is stored on the authenticated record alone, at most once in five minutes |
| TokenAuthority.IssuedTokenIsExact | backend/apps/accounts/api_tokens.py:98-238 | right after issue a personal or service token can exercise exactly its listed permissions in exactly its one workspace |
| TokenAuthority.GrantedExactly | backend/apps/accounts/api_tokens.py:65-238 | when a token is granted, by the stored rows, its permissions and its workspace, and for whom it speaks |
| TokenAuthority.TokenNeverExceedsSubject | backend/apps/accounts/policy.py:426-436 | (corollary of `TokenNarrowsExactly`) in any state a token allows nothing its subject could not do without it |
| MediaPreflight.ReadWhole | backend/tekdocs/recovery_preflight.py:48-55 | reading in chunks of at most 64 KiB reaches the stated size exactly when the member holds that many bytes |
| MediaPreflight.ValidateMediaArchive | backend/tekdocs/recovery_preflight.py:19-58 | the loop gives the verdict of the pass over the members, with the error of the first bad one |
| MediaPreflight.AncestorsAreProper | backend/tekdocs/recovery_preflight.py:42-42 | the computed ancestors of a name are exactly the paths it continues below a slash |
| MediaPreflight.AcceptsExactlyWellFormed | backend/tekdocs/recovery_preflight.py:19-58 | the pass accepts exactly the archives whose members are valid and fully readable, with distinct names and no file above another member |
| MediaPreflight.OrderDoesNotMatter | backend/tekdocs/recovery_preflight.py:19-58 | permuting the members never changes the verdict |
| MediaPreflight.AcceptedLayOutInAnyOrder | backend/tekdocs/recovery_preflight.py:42-46 | an accepted archive can be laid out in any order without a file in the way, and every order builds the same tree |
| MediaPreflight.AcceptedStaysInside | backend/tekdocs/recovery_preflight.py:27-41 | followed component by component from the root, the name of an accepted member never leaves it and arrives at the member's own name, or at the root for "." |
| MediaPreflight.RefusalNamesAFault | backend/tekdocs/recovery_preflight.py:30-55 | the error of a refused archive says what is wrong with one member and those before it |
| MediaPreflight.AcceptsExactlySafeTrees | backend/tekdocs/recovery_preflight.py:19-58 | an archive is accepted if and only if every member's name resolves inside the root to itself, what it holds can be restored, and no two members go to one place or have a file above the other |
| RecoveryArchive.RoundTrip | backend/tekdocs/recovery_archive.py:53-108 | opening a container gives back its plaintext, and the container is 36 bytes longer |
| RecoveryArchive.OpensExactlyContainers | backend/tekdocs/recovery_archive.py:68-108 | a file opens to a plaintext if and only if it is an encryption of it under this key and label, within the size bound |
| RecoveryArchive.AlterationNeedsTagCollision | backend/tekdocs/recovery_archive.py:47-50 | (corollary of opening, beside `OpensExactlyContainers`) an artifact whose nonce, label or ciphertext is replaced and whose tag is kept opens exactly when the tag function takes the same value on what is opened as on what was sealed, so accepting a changed label or ciphertext exhibits two inputs with one tag |
| RecoveryArchive.ContainerLayout | backend/tekdocs/recovery_archive.py:53-65 | the file byte by byte: the eight letters of the format, the nonce, each plaintext byte under its keystream byte, and the tag under the label's name |
| RecoveryArchive.OpeningReports | backend/tekdocs/recovery_archive.py:68-100 | each reason not to open a file is reported exactly when it is the first that applies |
| RecoveryArchive.LabelsAreBounded | backend/tekdocs/recovery_archive.py:47-50 | a label has 1 to 128 characters, none a space or control character; for ASCII labels nothing else is asked |
| RecoveryArchive.EncryptStream | backend/tekdocs/recovery_archive.py:53-65 | whatever sizes the reads return, the output is the one container of the whole source; a bad label writes nothing, an oversized source stops within the bound |
| RecoveryArchive.DecryptInto | backend/tekdocs/recovery_archive.py:89-100 | fills the temporary file with exactly the authenticated plaintext, or fails for the reason that applies, without touching the destination |
| RecoveryArchive.DecryptFile | backend/tekdocs/recovery_archive.py:68-108 | after every command the destination is its old content or the complete authenticated plaintext; without operating-system failures the outcome is that of opening the file; the temporary file stays only if removing it failed |
| SpreadsheetCells.SafeIsNeverDangerous | backend/apps/core/asset_csv.py:92-96 | no exported cell is one the guard calls dangerous |
| SpreadsheetCells.DecodeUndoesSafeExactly | backend/apps/core/asset_csv.py:92-104 | decoding undoes escaping if and only if the text is not an apostrophe followed by a dangerous text |
| SpreadsheetCells.SafeConfusesOnlyQuotedFormulas | backend/apps/core/asset_csv.py:92-104 | two texts that export alike differ by that one apostrophe |
| SpreadsheetCells.QuotedFormulaLosesItsApostrophe | backend/apps/core/asset_csv.py:99-104 | the concrete text that does not come back |
| SpreadsheetCells.EscapesExactlyFormulas | backend/apps/core/asset_csv.py:92-96 | export puts one apostrophe in front of exactly the texts whose first non-blank character is one of = + - @ or whose first is a tab or line end |
| AssetRows.ParsedRowIsImportable | backend/apps/core/asset_csv.py:199-272 | a parsed row's details pass the profile's own checks, are already in stored form and never dispose of hardware |
| AssetRows.OverlayOfChangesIsRequested | backend/apps/core/asset_csv.py:275-282 | saving only the changed fields yields the requested details, and there are none exactly when nothing differs |
| AssetRows.OverlaidField | backend/apps/core/asset_csv.py:437-443 | saving some fields changes those alone |
| AssetRows.RowsParseExactly | backend/apps/core/asset_csv.py:199-272 | when a row parses, column by column, and that it then says exactly what its columns say |
| AssetPlans.PreviewAssets | backend/apps/core/asset_csv.py:285-383 | the loop reports the review of all rows, and every row is counted once as created, updated, skipped or wrong |
| AssetPlans.ReviewDecides | backend/apps/core/asset_csv.py:285-383 | the preview finds no error if and only if every row is acceptable by itself and no two rows share a target, serial number or asset tag |
| AssetPlans.AcceptableExactly | backend/apps/core/asset_csv.py:296-352 | what makes one row acceptable, on the stored assets and models |
| AssetPlans.PlannedExactly | backend/apps/core/asset_csv.py:330-360 | a row is planned as a creation, skip or update exactly by what is stored, with exactly the fields that differ |
| AssetImportProofs.ExecutesThePlan | backend/apps/core/asset_csv.py:402-447 | executing an accepted file does to every target what its row asks of the initial state and counts as the preview did, or stops at the first row the initial state refuses; the unique identifiers and profile checks never refuse |
| AssetImportProofs.WritesExactlyThePlan | backend/apps/core/asset_csv.py:402-447 | afterwards each target holds what its row asks for and every other asset is as it was |
| AssetImportProofs.CreationStores | backend/apps/core/asset_csv.py:404-421 | a created asset has its row's name, model, dates and texts, but for texts that are empty or the kind's starting state; exactly when the stored details differ from the row's |
| AssetImportProofs.UpdateStores | backend/apps/core/asset_csv.py:422-443 | an asset that was there holds exactly its row's name and details afterwards and keeps its model |
| AssetImportProofs.AppliesItsRows | backend/apps/core/asset_csv.py:386-401 | an import that succeeds has parsed every row, found the file planned and executed those rows |
| AssetImportProofs.TokenForAcceptableFiles | backend/apps/core/asset_csv.py:361-383 | a preview hands out a token exactly for an acceptable file, naming its workspace, content and plan |
| AssetImportProofs.AppliesExactly | backend/apps/core/asset_csv.py:386-447 | an import succeeds exactly with a readable, acceptable file, the token of this workspace, file and plan, and no refused row; otherwise its error names the first that is missing |
| AssetImportProofs.SavesExactly | backend/apps/core/asset_csv.py:437-443 | the reasons a save of details is refused for, and what it otherwise stores |
| AssetImportProofs.UniqueAfterEveryRow | backend/apps/core/asset_csv.py:319-334 | non-empty serial numbers and asset tags are unique after every single row |
| AssetImportProofs.AppliesThePreviewedPlan | backend/apps/core/asset_csv.py:386-401 | an import accepted with a preview's token has that preview's content and plan digests, and, unless two different plans share a digest, its create, update and skip counts |
| AssetImportProofs.ImportKeepsUnique | backend/apps/core/asset_csv.py:386-447 | any import keeps identifiers unique, and after its plan is accepted only four outside reasons can refuse it |
| AssetImportProofs.ReimportSkipsExactly | backend/apps/core/asset_csv.py:404-421 | previewing an applied file again finds no error and only skips if and only if no creation swallowed details that differ from the defaults |
| AssetImportProofs.DefaultLookingTextIsLost | backend/apps/core/asset_csv.py:414-421 | an import that creates a router with the reference "in_stock" succeeds, stores an empty reference, and plans the same row as a change of that field the next time |
| AssetImportProofs.DisposedUpdateIsPlannedThenRefused | backend/apps/core/asset_csv.py:441-445 | a row for disposed hardware is previewed as an update without an error and refused when applied |
| AssetWorkspace.Workspace.ApplyAssets | backend/apps/core/asset_csv.py:386-447 | the transaction has the specified effect and counts, and on any error leaves the inventory as it was |
| AssetExport.ExportReadsBackExactly | backend/apps/core/asset_csv.py:114-142 | reading an exported row gives back the asset it was made from if and only if it is not disposed hardware and none of its texts is an apostrophe and a formula |
| AssetExport.ExportPreviewsAsSkipsExactly | backend/apps/core/asset_csv.py:114-142 | previewing an export in the workspace it came from finds no error and plans nothing but skips if and only if no exported asset is disposed hardware and none holds a text that is an apostrophe and a formula |
| AssetExport.QuotedNameIsShortened | backend/apps/core/asset_csv.py:99-104 | a name that is an apostrophe and a formula comes back as the formula alone |
| AssetExport.QuotedNameIsLost | backend/apps/core/asset_csv.py:99-104 | a stored software asset named by an apostrophe and a formula, which the export renames |
| ReleaseFinalization.ReleaseRemote.PublishCommitImages | scripts/finalize_ci_release.py:74-96 | wherever it stops, it has pushed a prefix of the missing images; when it completes, every commit image has the loaded configuration |
| ReleaseFinalization.ReleaseRemote.FinalizeRelease | scripts/finalize_ci_release.py:99-190 | the loops have the specified effect when stopped after any number of writes |
| ReleaseEffects.PublishesExactlyTheMissing | scripts/finalize_ci_release.py:74-96 | publishing adds exactly the missing commit images, as loaded, or nothing |
| ReleaseEffects.ChecksPassExactly | scripts/finalize_ci_release.py:99-144 | the checks pass exactly for a trusted, reviewed job of its own version with four cleared images; anything else is refused before the first write, an untrusted or unreviewed job first |
| ReleaseEffects.CompletesExactly | scripts/finalize_ci_release.py:99-190 | when a run completes, and the aliases, tag and receipt it then leaves |
| ReleaseRuns.RunKeepsTags | scripts/finalize_ci_release.py:74-190 | over any run of interrupted jobs, whatever they have loaded, a commit image is never replaced, no version or receipt tag moves, and a new application tag comes with its receipt tag |
| ReleaseRuns.RunKeepsReleases | scripts/finalize_ci_release.py:74-190 | over any run whose loaded images push to their commit images' digests, a version alias never changes digest, and a receipt lists the digests of its version's aliases |
| ReleaseRuns.RetryFinishes | scripts/finalize_ci_release.py:131-190 | a release stopped anywhere and retried with the same commit ends where an uninterrupted run ends, with the same outcome |
| ReleaseRuns.RetriesConverge | scripts/finalize_ci_release.py:131-190 | the same after any number of interrupted attempts |
| ReleaseRuns.AliasesStayExactlyWhen | scripts/finalize_ci_release.py:145-154 | for any loaded images and any stop, every alias there was keeps its digest if and only if the run is refused before its first push or reaches no existing alias with an image that pushes to another digest |
| ReleaseRuns.AliasMoves | scripts/finalize_ci_release.py:145-154 | a remote with one published alias and a rebuilt image: every check passes, the alias moves, and then the run is refused |
| CatalogStore.Store.AddProduct | backend/apps/core/catalogs.py:197-232 | a supplier's product is added with price and currency both or neither; like every operation of the store, it keeps the catalog invariant |
| CatalogStore.Store.ChangeProduct | backend/apps/core/catalogs.py:235-262 | named fields change, an omitted amount or currency stays, and the pair is checked as a whole |
| CatalogStore.Store.RetireProduct | backend/apps/core/catalogs.py:265-288 | the loop archives the product and every model of it, and nothing else |
| CatalogStore.Store.AddDefinition | backend/apps/core/catalogs.py:306-318 | a definition and its first version appear together or not at all |
| CatalogStore.Store.AddVersion | backend/apps/core/catalogs.py:321-335 | an unarchived definition gets the next version number |
| CatalogStore.Store.AddModel | backend/apps/core/catalogs.py:349-407 | a model with its first revision is added to an unarchived product, for a definition that applies and a free model number |
| CatalogStore.Store.Revise | backend/apps/core/catalogs.py:410-462 | appends the next revision only on the current one, or changes nothing |
| CatalogStore.Store.RetireModel | backend/apps/core/catalogs.py:465-479 | one model is archived |
| CatalogStore.FindLatest | backend/apps/core/catalogs.py:423-423 | scanning a history finds the row with the highest number of its owner |
| CatalogEffects.ProductCreatedExactly | backend/apps/core/catalogs.py:197-232 | when a product is created, and its row |
| CatalogEffects.ProductUpdatedExactly | backend/apps/core/catalogs.py:235-262 | when a product is updated, and which of its fields change to what |
| CatalogEffects.ArchivedExactly | backend/apps/core/catalogs.py:265-288 | an archived product and every model of it are archived afterwards, nothing else changed; an archived model alone |
| CatalogEffects.DefinitionCreatedExactly | backend/apps/core/catalogs.py:306-318 | when a definition is created, its row and its version 1 |
| CatalogEffects.VersionAddedExactly | backend/apps/core/catalogs.py:321-335 | when a version is added, with the number after those there are |
| CatalogEffects.ModelCreatedExactly | backend/apps/core/catalogs.py:349-407 | when a model is created, its row and its first revision |
| CatalogEffects.RevisedExactly | backend/apps/core/catalogs.py:410-462 | a revision is made exactly on the last of the model's history, and becomes its child with the next number |
| CatalogRuns.RunKeepsInvariant | backend/apps/core/catalogs.py:197-479 | every interleaving keeps histories numbered and chained, revisions under definitions of the product's owner and kind, archived products without unarchived models, unique model numbers and paired prices; histories only grow at the end |
| CatalogRuns.ReachableRevisionsFormAChain | backend/apps/core/catalogs.py:349-462 | in every reachable catalog a model's revisions are numbered from one, each the child of the one before, and the current one is the last |
| CatalogRuns.OneReviserPerBase | backend/apps/core/catalogs.py:423-428 | of any revisions made from one base, in any order and with anything between, at most one succeeds; later ones are stale |
| CatalogRuns.RevisionsNeverClash | backend/apps/core/models.py:1632-1690 | the unique revision number and the one-child-per-parent constraint never refuse a revision |
| CatalogRuns.VersionsNeverClash | backend/apps/core/models.py:1592-1596 | the unique version number never refuses a definition version |
| CertificateNames.SuffixIsLabels | backend/apps/core/certificate_monitoring_egress.py:180-180 | one more dot and the base as suffix is the same as one label in front of the base's labels |
| CertificateNames.MatchesExactlyByLabels | backend/apps/core/certificate_monitoring_egress.py:170-180 | a wildcard pattern matches exactly the names with one non-empty label before its base labels, a plain pattern only itself (section 6.4.3 of RFC 6125) |
| CertificateNames.WildcardCoversOneLabel | backend/apps/core/certificate_monitoring_egress.py:170-180 | a wildcard never covers its own base nor two labels |
| CertificateNames.AcceptedExactly | backend/apps/core/certificate_monitoring_egress.py:50-73 | a name is accepted exactly when the IDNA form of its lower-case form consists of two or more well-formed labels, with a leading wildcard set aside where one is allowed |
| CertificateNames.TrailingDotIsIgnored | backend/apps/core/certificate_monitoring_egress.py:50-53 | a trailing dot makes no difference |
| ScanFraming.Send | backend/apps/core/attachment_security.py:156-160 | the command and the loop send the stream of the whole content |
| ScanFraming.ReceivesExactlyTheContent | backend/apps/core/attachment_security.py:156-160 | after the command, reading length-prefixed chunks to the first zero yields the content and leaves whatever follows |
| ScanFraming.StreamsArePrefixFree | backend/apps/core/attachment_security.py:156-160 | no content's stream begins another content's stream |
| ScanFraming.StreamBegins | backend/apps/core/attachment_security.py:156-160 | the ten characters of the command and the length of the first chunk, at most 64 KiB |
| Diagnostics.Recorder.RecordEvent | frontend/e2e/publicationDiagnostics.ts:76-80 | appends one event, dropping the oldest of a full buffer; nothing after finish |
| Diagnostics.Recorder.Request | frontend/e2e/publicationDiagnostics.ts:81-91 | tracks a classified request, pushing out the oldest of 32, and records it |
| Diagnostics.Recorder.Response | frontend/e2e/publicationDiagnostics.ts:92-95 | records the response of a tracked request |
| Diagnostics.Recorder.Complete | frontend/e2e/publicationDiagnostics.ts:96-99 | records and untracks a tracked request |
| Diagnostics.Recorder.Finish | frontend/e2e/publicationDiagnostics.ts:114-126 | finishes once, and reports unless the run passed or was skipped |
| Diagnostics.RunHolds | frontend/e2e/publicationDiagnostics.ts:70-101 | over any run the buffer is the last 128 of all recorded events with the rest counted as dropped, at most 32 requests are pending in insertion order, and each insertion is pending, completed or evicted exactly once, the oldest evicted first |
| Diagnostics.InsertionsAreConserved | frontend/e2e/publicationDiagnostics.ts:81-99 | insertions equal pending plus completed plus evicted |
| Diagnostics.FinishedRecordsNothing | frontend/e2e/publicationDiagnostics.ts:76-80 | after finish no input changes events or the dropped count |
| Diagnostics.NothingAfterFinish | frontend/e2e/publicationDiagnostics.ts:114-117 | finishing keeps what there is, and no later input changes events or the dropped count |
| Diagnostics.RequestLeaves | frontend/e2e/publicationDiagnostics.ts:81-91 | the event a classified request records, with its time, and where it is then tracked |
| Diagnostics.TrackedLeaves | frontend/e2e/publicationDiagnostics.ts:92-99 | the event a response or completion records, with both times, and what it untracks |
| Diagnostics.OtherInputsLeave | frontend/e2e/publicationDiagnostics.ts:76-113 | what page events and milestones record, and that anything else leaves everything as it was |

## Left out

- Cryptographic primitives: SHA-256 digests of invitation tokens and the password hash of API tokens are taken as free of
  collisions; AES-GCM is an arbitrary keystream and tag (sections 7.1 and 7.2 of NIST SP 800-38D), and the source and
  action digests are arbitrary functions, with nothing assumed of them. How hard a tag or digest collision is to find is
  not part of this model. A signed preview token is modelled by what reading its signature back gives.
- Randomness and time: new tokens, identifiers and nonces are parameters. Runs assume tokens and token secrets are new;
  the loop that draws another API token prefix when one is taken is its result, a free prefix. Clocks are parameters, and the browser's are whole milliseconds.
- Library parsers: tar members, CSV cells, JSON Schema validity, UUID, date and IDNA parsing, identifier normalisation
  (assumed to change nothing when done twice) and currency normalisation are inputs or function parameters.
- Names and addresses: case folding and e-mail normalisation are left out; names are taken in their case-folded form.
- The tenant table: one installation is one tenant, and its row stands for the tenant's.
- Audit events, lifecycle events, outbox messages, row-level security, document provenance of assets and every view,
  serializer, route and throttle.
- Second factors and recent authentication: passed in as booleans, or left to the views.
- Concurrency inside a transaction: row locks make each transaction one step, so steps interleave but never overlap.
- `has_archived_organization` decisions, field-level access, data audiences and the listing queries of the access pages.
- `validate_secret_archive`, `load_key` and `manifest_mac` of the recovery tools.
- File-level limits of an asset CSV file (size, row count, header, encoding): the reader's result is an input.
- Release messages, attestations and output files: a reviewed message and verified attestations are inputs.
- Socket errors, scanner responses and the structural checks of attachments other than the stream framing.
- The classifier of request paths in the browser diagnostics, and `dispose`, which only empties both buffers.
- ReleaseRuns.RunKeepsReleases: assumes that the image a job has loaded pushes to the digest its commit tag has, because
  the digest of a push is the registry's doing; `AliasesStayExactlyWhen` says what happens otherwise.
- ReleaseRuns.RetriesConverge: compares commits, digests and receipts, not the ids of tag and commit objects, which
  carry a time and so differ between attempts.
- RecoveryArchive.EncryptStream: does not model a failing destination; additional data is kept as text, whose UTF-8 form
  is unique.
- RecoveryArchive.DecryptFile: reads of the header before the temporary file exists do not fail.
- AssetExport.ExportReadsBackExactly: assumes that printed identifiers and dates parse back and need no escaping; an
  identifier that is an apostrophe and a formula counts as surviving if the normaliser puts the apostrophe back.
- AssetImportProofs.ImportKeepsUnique: assumes the identifiers unique before, as the database constraints do.
- ApiTokens.Store.Issue: the eligibility and authority checks before it are `TokenAuthority.IssuedTokenIsExact`.
