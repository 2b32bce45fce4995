# Verified model of the controller's stateful core

This project models, in Dafny, the parts of the controller whose behaviour depends on state kept
across calls, and proves what holds of them over all inputs, all runs and all reachable states.

* **Settings** (`Settings*.dfy`). A read of a setting passes through a per-process memo, a shared
  cache with encrypted entries, the `Setting` table and the defaults; a batch preload fills the same
  cache by other code; writes invalidate and re-read. `SettingsModel.DirectRead` is the plain lookup
  all of this speeds up. `SettingsCache` gives the layers as functions on values, `SettingsWrapper`
  the same as classes changed in place, and the other files prove, for any number of processes,
  any table changes, any passing of time and any lost cache operations: how stale a read of a
  setting, or of one computed from another, can be and exactly when it fails, that ciphertexts and
  their key entries agree where no write is lost, when the preload and the single read agree, that
  writers read back what they wrote, that dependents are recomputed and other settings left alone,
  and that settings files shadow the table and forbid writing. `SettingsView` adds the endpoint: when
  putting back what it shows changes nothing. `SettingsLayers`, `SettingsOutcomes` and
  `SettingsViewOutcomes` spell out what each layer, write and submission does. `SettingsExamples` holds
  small installations in which reads go wrong. `Registry` adds the index of dependent settings and the category listings.
* **Deep copy** (`DeepCopy*.dfy`). Objects are a store indexed by identity. `DeepCopy.CopyForest`
  clones a finite tree of objects; `DeepCopyTask` performs the same copy object by object on a shared
  table while reading the relations from that table, then rebuilds links; `DeepCopyEndpoint` joins it
  to the copy of the object asked for. The copies are shown to be fresh, to be exactly one per object
  plus one template per approval node, and to form the same tree. `DeepCopyOutcomes` says field by field what
  copies hold, and `DeepCopyExamples` copies a small tree.
* **Tenant registration** (`Tenant*.dfy`). A two-step protocol over registrations, organizations,
  users and pools, with expiry, idempotent resubmission and one-shot use of a link.
* **Mesh** (`Mesh*.dfy`). Instances, receptor addresses and peer links as the instance endpoint edits
  them, including the automatic peering of control nodes that saving an address triggers.
* **Smaller algorithms**. Field lists of serializer classes (`MetaFields`), assembly of bulk jobs
  (`BulkLaunch`), websocket subscriptions (`Subscriptions`), ordered many-to-many rows
  (`OrderedMany`) and the relay token (`RelayToken`).

Functions give the meaning of an operation as a whole. The methods of the classes and the loops are
written as the source is, and each is proved to leave its state as the function says; the lemmas are
about the functions. Properties that turn out not to hold of the code are stated with the exact
condition under which they do, and an input where they do not:

* a read of a setting can fail although the table has an answer: it fails exactly when the reader has
  no live memo and either its preload meets a row that cannot be opened, or it fetches a live entry
  sealed under another key than the one then in force, or it finds no value and the row itself cannot
  be opened (`SettingsRuns.ReadFailsExactly`; `SettingsRuns.FailsAsItStands` and
  `SettingsRuns.FailsAfterOwnPreload` say when the key in force is the wrong one); for encrypted
  settings with a default one lost `_ID` write is enough, for those without none has to be lost, in
  the time between the first save of a new row and the eviction its signal makes
  (`SettingsExamples.WrongKeyRun`);
* a read of a setting the files define can depend on the table: it fails exactly when it has no live
  memo, loads the cache itself and meets another setting's row that cannot be opened
  (`SettingsFiles.FilesShadowTheTable`, `SettingsExamples.FileReadFails`);
* the preload and the single read disagree exactly in two cases: where another setting's row cannot
  be opened, and at a null row whose default does not read as unset
  (`SettingsPreload.PreloadRefinesSingleRead`, `SettingsExamples.PreloadFails`,
  `SettingsExamples.PreloadServesTheDefault`);
* putting back a shown document changes a setting exactly when the value shown is taken, is no mask,
  and is read back otherwise than what the first row holds, or, without a row, than the default
  shown: with one row at most, only the null of an encrypted setting that has none is, unless the
  text of null reads as unset
  (`SettingsView.PutBackIsNoOp`, `SettingsView.OneRowPutsBack`,
  `SettingsExamples.PutBackStoresTheTextOfNull`, `SettingsExamples.PutBackOverwritesTheFirstRow`);
* the mesh stays free of mutual, self and double peering exactly if no request has control nodes
  peer to an instance that is not apart from them (`MeshRuns.RunIsSound`,
  `MeshRuns.MutualPeersAreAccepted`); a port changes to another exactly when zero is asked for
  (`MeshRuns.PortOnlyZeroed`, `MeshRuns.ZeroIsAccepted`);
* requests whose usernames differ only in case can be pending together, though only one of them can
  be verified (`TenantService.CaseVariantsCoexist`, `TenantRuns.RivalIsRefused`), and such a variant
  of a pending request is answered with the first registration exactly if no other live one overlaps
  it (`TenantService.ResubmissionIsIdempotent`);
* a session that was sent a malformed message keeps memberships it no longer remembers, and which
  they are is given exactly (`Subscriptions.MembershipsAreTracked`,
  `Subscriptions.MalformedLeavesMember`);
* a preserved reference from one copied object to another, other than to its parent, is never
  redirected (`DeepCopyShape.CopyReferences`, `DeepCopyResult.PreservedReferenceStays`,
  `DeepCopyExamples.SiblingStaysBehind`), although many-to-many links are
  (`DeepCopyResult.LinksAreCopied`).

Where the code and its documentation disagree the code is followed: `decrypt_field` converts a null
to text before looking at it, so an encrypted null row reads as the text of null; and a wrong key
raises an exception that a setting read does not catch, which the model shows as `Failed`.

## Model

| member | source | states |
|---|---|---|
| SettingsModel.CodecRoundTrip | awx/conf/settings.py:214-224 | decoding a cached form gives the value back (null as unset) exactly when the value is not itself one of the sentinel strings |
| SettingsModel.DecryptUndoesEncrypt | awx/conf/settings.py:167-181 | opening what was sealed under a row's key gives the text back, the empty text included |
| SettingsModel.OpensOrBreaks | awx/main/utils/encryption.py:132-169 | sealed text opens under its own key, or any if it is empty, and under every other is refused as a bad token |
| SettingsFreshness.LoadKeyAnswers | awx/conf/settings.py:317-341 | what a preload caches for a writable key answers a read as the direct lookup does, and its `_ID` entry names the row the table would name |
| SettingsFreshness.FetchIsFresh | awx/conf/settings.py:151-181 | a hit in the shared cache answers as a direct lookup did since the entry was written; a fetch breaks exactly when the key in force is not the one the live entry was sealed under, which takes a lost write, an `_ID` entry that does not last or a lost lookup of it |
| SettingsFreshness.RecomputeTracked | awx/conf/settings.py:367-415 | a miss recomputes the direct answer, and what it caches, whatever of it is lost, keeps the freshness of the key |
| SettingsFreshness.ReadKeeps | awx/conf/settings.py:424-444 | any read of any key, losing any operations, keeps every live memo and cache entry of a tracked key recent; a read of the key itself fails exactly where it has no live memo and cannot be made, and otherwise answers recently |
| SettingsRuns.RunGood | awx/conf/settings.py:287-444 | every reachable state of any number of processes, table changes, evictions and clock ticks, whatever is lost, has only recent entries, each some plain text sealed under some key; under the key its `_ID` entry names where no write of the key's entries is lost and its `_ID` entries last |
| SettingsRuns.BoundedStaleness | awx/conf/settings.py:287-444 | in any run, whatever is lost, a read of a writable setting fails or returns what a direct lookup in the table returned less than 65 seconds earlier |
| SettingsExamples.StalenessIsSharp | awx/conf/settings.py:36-57 | for any margin there is a run whose read gives what the table has not said for all but 65 seconds, so that the bound cannot be better |
| SettingsRuns.ReadFailsExactly | awx/conf/settings.py:151-181 | a read in a run fails if and only if it has no live memo, and its preload meets an unreadable row, or it fetches a live entry under another key than that was sealed under, or it finds nothing cached and an unreadable row |
| SettingsRuns.ShelteredNeverFails | awx/conf/settings.py:287-444 | where an encrypted key has a default and a lasting `_ID` entry and loses no write of its entries, a read that finds every row readable and its own id lookup answered does not fail and answers recently, whatever was lost or unreadable before |
| SettingsRuns.FailsAsItStands | awx/conf/settings.py:310-313 | a read that makes no preload of its own fails if and only if the entry it fetches was sealed under another key than the one in force, or there is none and the direct lookup fails |
| SettingsRuns.FailsAfterOwnPreload | awx/conf/settings.py:342-348 | right after its own preload wrote the value, a read meets the wrong key if and only if exactly one of the lookups of the id was lost and the other found a live entry naming another row than the table |
| SettingsLayers.DirectFromRow | awx/conf/settings.py:368-415 | the direct lookup opens the first global row of a setting that has one, under that row's key, and answers with what validation makes of it; null, the marker and what is invalid fall to the settings files |
| SettingsLayers.DirectFromDefault | awx/conf/settings.py:380-415 | of a setting that has none it answers so from the field's default |
| SettingsLayers.FormsExactly | awx/conf/settings.py:214-224 | no cached form is null or an empty list or dictionary, and every other value is cached as it is |
| SettingsLayers.FetchesExactly | awx/conf/settings.py:151-181 | a fetch gives what a live entry holds, opened under the live `_ID` entry's row or else the first row; a refused token escapes and malformed text is as nothing |
| SettingsLayers.MemoAnswers | awx/conf/settings.py:424-431 | a live memo answers and nothing else happens |
| SettingsLayers.ReadIsMemoized | awx/conf/settings.py:424-431 | any other read leaves its answer in the memo for five seconds, and where an exception escapes what was there before |
| SettingsLayers.PreloadsExactly | awx/conf/settings.py:287-316 | a preload is due unless its deadline is to come, sets the next for a minute later, and loads the cache unless another's marker is live; it fails exactly if some setting cannot be loaded |
| SettingsLayers.LoadsFromRow | awx/conf/settings.py:317-328 | a setting is loaded from its first row that is not unset, with that row's key if encrypted, and nothing can be loaded if it does not open |
| SettingsLayers.LoadsDefault | awx/conf/settings.py:329-341 | one without such a row is loaded as its default, with no row for a key |
| SettingsLayers.FillsExactly | awx/conf/settings.py:342-348 | what is loaded of each setting the table backs is written for a minute, its `_ID` entry first, but for writes that are lost; nothing else is |
| SettingsLayers.ReadsExactly | awx/conf/settings.py:350-366 | a read past the memo fails where its preload or its fetch does, answers from a value fetched without caching anything, and otherwise goes to the table |
| SettingsLayers.MissFindsRow | awx/conf/settings.py:369-415 | behind a miss the first row of a setting the table backs is cached for a minute under its own key and validated, or the read fails where it does not open |
| SettingsLayers.MissFindsDefault | awx/conf/settings.py:379-415 | of any other the default is, under no row's key |
| SettingsLayers.MissComputes | awx/conf/settings.py:379-415 | a computed default is what it makes of reading its source, and fails where that gives no value |
| SettingsLayers.ResolvesExactly | awx/conf/settings.py:437-443 | an attribute is the value read, a failure where an exception escapes, and what the settings files hold, or else unset, where nothing is found |
| SettingsLayers.EvictsExactly | awx/main/cache.py:81-83 | an eviction takes the values named, and no `_ID` entry nor the marker |
| SettingsLayers.DependentsExactly | awx/conf/signals.py:23-33 | the settings evicted and read again with one are those registered as depending on it |
| SettingsRuns.KeyAgreement | awx/conf/settings.py:151-181 | in every reachable state of a run that loses no write of an encrypted key's entries, the key having a default and a lasting `_ID` entry, a live ciphertext was sealed under the key its live `_ID` entry names, so fetching it gives back the sealed text through row creation, deletion and re-creation and whatever else is lost |
| SettingsSignals.SignalIsARun | awx/conf/signals.py:20-36 | the handler's call, whatever it loses and wherever an exception cuts it short, is a sequence of the events runs are made of |
| SettingsPreload.ColdReadIsDirect | awx/conf/settings.py:350-415 | a single read with nothing cached is the direct lookup |
| SettingsPreload.WarmReadIsLoad | awx/conf/settings.py:287-366 | a read that preloads gives the preloaded form decoded, or the direct lookup where that form is "not set", or fails where some row cannot be opened |
| SettingsPreload.PreloadRefinesSingleRead | awx/conf/settings.py:312-415 | the first read after a preload equals the single read with an empty cache if and only if that fails too, or every preloaded setting can be loaded and a null first row goes with a default that reads as unset |
| SettingsFiles.FilesShadowTheTable | awx/conf/settings.py:295-309 | in any run a read of a key that the settings files define gives the file's value, and fails if and only if it has no live memo, loads the cache itself and meets a row that cannot be opened |
| SettingsFiles.MarkPersists | awx/conf/settings.py:302-309 | a key a process has once marked as defined in the files stays marked in every later state |
| SettingsFiles.MarkedExactly | awx/conf/settings.py:295-309 | in every state of a run a process has marked, once it has preloaded, exactly the settings the table can back whose file value is not null and not the one shipped; before, none |
| SettingsFiles.ShippedIsWritable | awx/conf/settings.py:301-307 | a setting the files leave as shipped is never marked, and setting or deleting it is never refused as read-only |
| SettingsFiles.FilesForbidWrites | awx/conf/settings.py:295-309 | once a process has begun to read past its memo, setting and deleting any key the files define are refused in every later state, changing nothing |
| SettingsWrites.ReadAfterSignal | awx/conf/signals.py:20-36 | after a signal whose delete was not lost, whatever else is, the writer and every process without a live memo read the changed setting and its dependents as the table now has them, unless they exactly cannot read; where no write of an encrypted key's entries is lost and the rows are readable they can |
| SettingsWrites.SetThenRead | awx/conf/settings.py:446-467 | an assignment that saves is read back as the value stored, through both saves of a new encrypted row, if the last signal's delete was not lost and the writer can read |
| SettingsWrites.SaveChangedReads | awx/conf/models.py:36-61 | saving an existing row, sealed under its own key, makes the table give the stored value, and the writer's next read unless it exactly cannot read |
| SettingsWrites.DeleteThenRead | awx/conf/settings.py:476-483 | a deletion that runs to its end, one signal for each row however many there are, leaves no row and the writer reading the default, if the last signal's delete was not lost and the writer can read |
| SettingsOutcomes.RefusedAsReadOnly | awx/conf/settings.py:446-450 | setting or deleting is refused as read-only exactly for settings declared or marked so |
| SettingsOutcomes.RefusedAsInvalid | awx/conf/settings.py:451-459 | a value is refused exactly where representing it, validating that, or representing the outcome fails |
| SettingsOutcomes.AssignToRow | awx/conf/settings.py:460-467 | assigning to a setting that has a row changes nothing exactly if the first row holds the stored form already; otherwise that row, and no other, is written with it, sealed under its own key if encrypted |
| SettingsOutcomes.AssignToNone | awx/conf/settings.py:460-467 | assigning to one that has none adds one row that holds the stored form, or an empty one where an exception cuts the two saves of an encrypted row short |
| SettingsOutcomes.Deletes | awx/conf/settings.py:476-483 | deleting changes nothing exactly if there is no row; run to its end it removes all the setting's global rows, cut short at least one, and never another row |
| SettingsOutcomes.AssignmentSignals | awx/conf/models.py:36-61 | an assignment to a row sends one signal on the table with that row written; to none, one with the new row, or, if encrypted, one while it is empty and, unless an exception escapes, one once it is written |
| SettingsOutcomes.DeletionSignals | awx/conf/settings.py:476-483 | a deletion takes the rows away from the first on, a signal after each, until none is left or an exception cuts one short |
| SettingsOutcomes.NotifiesExactly | awx/conf/signals.py:18-39 | a save or deletion drops the setting and its dependents from the cache, clears the memo and reads each again in turn; it is cut short exactly at the first of these reads that raises |
| SettingsDependents.DependentRecomputed | awx/conf/signals.py:23-36 | after the signal each dependent computed from the setting reads as computed from its new value, or fails exactly where it has no live memo and its source cannot be read |
| SettingsDependents.SetLeavesOthers | awx/conf/settings.py:446-467 | assigning one setting, whatever is lost, leaves every other's direct answer, and the freshness of its entries, as they were |
| SettingsDependents.DelLeavesOthers | awx/conf/settings.py:476-483 | so does deleting one, row by row |
| SettingsComputed.ComputedStaleness | awx/conf/settings.py:287-444 | in any run, whatever is lost, a read of a read-only setting computed from another fails or answers as computed from what a direct lookup of its source gave less than 130 seconds earlier |
| SettingsComputed.ComputedFailsExactly | awx/conf/settings.py:350-415 | it fails if and only if it has no live memo, and its preload fails, or it fetches under the wrong key, or it finds no value cached and reading its source gives none |
| SettingsComputed.ReadComputed | awx/conf/settings.py:424-444 | any read of it keeps its memo and cache entry computed from recent values of the source |
| SettingsComputed.ReadLeaves | awx/conf/settings.py:350-415 | reading any other setting leaves its memo and its cache entry alone |
| SettingsWrapper.SharedCache.SetValue | awx/main/cache.py:53-55 | a set that is lost changes nothing; any other stores the value with its expiry |
| SettingsWrapper.SharedCache.DeleteMany | awx/main/cache.py:81-83 | a delete that is lost changes nothing; any other removes exactly the named values and no `_ID` entry |
| SettingsWrapper.SettingsWrapper.MarkFileDefined | awx/conf/settings.py:295-309 | marks exactly the writable keys whose file value differs from the shipped default |
| SettingsWrapper.SettingsWrapper.LoadFromTable | awx/conf/settings.py:317-328 | the loop over the table leaves, for each key, the form and key entry of its first row that is not unset |
| SettingsWrapper.SettingsWrapper.LoadDefaults | awx/conf/settings.py:329-341 | the loop over keys not found in the table fills in their defaults |
| SettingsWrapper.SettingsWrapper.FillCache | awx/conf/settings.py:342-348 | writes the id entries, then the values sealed under them, then the marker, each of which may be lost |
| SettingsWrapper.SettingsWrapper.PreloadCache | awx/conf/settings.py:287-348 | the whole preload does what the preload function says to the process and the shared cache |
| SettingsWrapper.SettingsWrapper.GetLocal | awx/conf/settings.py:350-366 | a single read gives the outcome, and leaves the process and the cache, as the value model says |
| SettingsWrapper.SettingsWrapper.FindStored | awx/conf/settings.py:369-388 | finds the first row of a setting the table backs, decrypted where it is encrypted, or else its default, and the key entry to write for it |
| SettingsWrapper.SettingsWrapper.Recomputed | awx/conf/settings.py:367-415 | behind a cache miss the row, or else the default, is looked up, cached under its own key entry and validated as the value model says |
| SettingsWrapper.SettingsWrapper.GetAttr | awx/conf/settings.py:424-444 | an attribute read through the memo resolves to the value, the file's value, or a missing attribute, and leaves memo, deadline, marks and cache as the value model says |
| SettingsWrapper.SettingsWrapper.HandleSettingChange | awx/conf/signals.py:20-36 | the handler evicts, clears the memo and re-reads as the value model says |
| SettingsWrapper.SettingsWrapper.SaveNewRow | awx/conf/models.py:36-61 | a new row is saved in two phases where encrypted, each sending the signal |
| SettingsWrapper.SettingsWrapper.SetAttr | awx/conf/settings.py:446-474 | an assignment ends refused, unchanged, saved or cut short with the table, process and cache the value model gives |
| SettingsWrapper.SettingsWrapper.DelAttr | awx/conf/settings.py:476-490 | a deletion removes each row of the setting in turn, sending the signal each time |
| SettingsView.ResubmitOne | awx/conf/views.py:111-126 | submitting back one shown value keeps the setting's effective value if and only if it is not taken, is a mask, is what the first row holds, or as it is read back answers as that does or, without a row, as the default shown |
| SettingsView.SubmitStores | awx/conf/views.py:118-126 | a value that validates and reads back is the one the setting resolves to once submitted |
| SettingsViewOutcomes.SubmitSkips | awx/conf/views.py:115-119 | what is for the license or a read-only setting, is a mask, or does not validate, writes nothing |
| SettingsViewOutcomes.SubmitToRow | awx/conf/views.py:118-128 | a value taken is written, as the field represents what validation makes of it, to the first row and no other, unless that holds it already |
| SettingsViewOutcomes.SubmitToNone | awx/conf/views.py:121-124 | of a setting without a row one is added, under a key above all others |
| SettingsViewOutcomes.PutExactly | awx/conf/views.py:111-129 | an accepted document leaves the first row of each setting it changes holding the form its value validates to, sealed under the row's own key if encrypted, one new row for each it changes that had none, and every other row as it was; a refused one leaves the table alone |
| SettingsViewOutcomes.ReportsExactly | awx/conf/views.py:115-128 | a document reports a setting as written exactly if it is named, taken and validates, what is to be stored is no mask, and no first row holds that already |
| SettingsView.PutBackIsNoOp | awx/conf/views.py:92-133 | submitting back the document of a category keeps a setting's effective value if and only if the document is refused, by a value or by the category's own check, or the value is safe to put back, whatever becomes of the other settings |
| SettingsView.OneRowPutsBack | awx/conf/views.py:96-106 | of a setting with one row at most, only the null of an encrypted setting without a row is unsafe to put back |
| SettingsView.ChangesAreWritten | awx/conf/views.py:115-133 | every setting whose effective value a document changes is in the list handed to the clearing of cached values |
| SettingsViewOutcomes.RefusedDocument | awx/conf/serializers.py:45-53 | a document with a value that is taken and does not validate is refused |
| SettingsViewOutcomes.AcceptedDocument | awx/conf/serializers.py:62-72 | one whose values taken all validate is accepted exactly if the category's check lets through what is there now together with what is to be stored |
| SettingsView.PutLeavesOthers | awx/conf/views.py:111-126 | whatever is submitted, settings outside the category read as before |
| SettingsView.SettingSingletonDetail.GetObject | awx/conf/views.py:92-109 | the attributes of a category: of each setting the last row's value, or the default where there is no row |
| SettingsViewOutcomes.ShowsLastRow | awx/conf/views.py:92-97 | a setting the table backs shows its last global row, an encrypted text as a mask unless empty |
| SettingsViewOutcomes.ShowsDefault | awx/conf/views.py:98-106 | any other shows its default, a computed one as computed now, or null |
| SettingsViewOutcomes.DefaultIs | awx/conf/registry.py:150-163 | a field's default is its file value as it represents it, if it is writable, has no default of its own or is marked; else what is registered |
| SettingsView.SettingSingletonDetail.Retrieve | awx/conf/serializers.py:41-44 | the shown document holds those attributes, encrypted texts masked |
| SettingsView.SettingSingletonDetail.Update | awx/conf/views.py:111-133 | a document that validates and passes the category's check is written setting by setting, masks, read-only settings and equal values skipped, and what was written is reported; any other changes nothing |
| SettingsExamples.WrongKeyRun | awx/conf/models.py:36-61 | a run in which at most one `_ID` write is lost, and between a new row's first save and the eviction of its signal a read that loses nothing fails where the table has an answer |
| SettingsExamples.FileReadFails | awx/conf/settings.py:317-328 | a key the files define, whose first read fails because another key's row cannot be opened |
| SettingsExamples.PreloadFails | awx/conf/settings.py:317-328 | a key without rows, whose first read fails for the same reason where the single read gives its default |
| SettingsExamples.PreloadServesTheDefault | awx/conf/settings.py:329-341 | for one null row and a default of 7 the first read gives 7 after a preload and nothing without |
| SettingsExamples.PutBackStoresTheTextOfNull | awx/conf/views.py:118-126 | an encrypted setting without default or row, put back as shown, reads as the text of null |
| SettingsExamples.PutBackOverwritesTheFirstRow | awx/conf/views.py:96-126 | of two rows the last is shown and, put back, overwrites the first, which is the one read |
| Registry.IndexIsInverse | awx/conf/registry.py:37-61 | after any run of registrations, refusals and removals a setting is among another's dependents if and only if it is registered and depends on it |
| Registry.RegisteredExactly | awx/conf/registry.py:37-48 | a setting is registered exactly if its name is free, it has a field class and its category is not a derived one |
| Registry.ListedExactly | awx/conf/registry.py:85-101 | a setting is listed exactly if its category is the one asked for or that is derived from it, it is of no ignored category, and it is read-only or not as asked, the installation identifier always |
| Registry.CategoriesPartition | awx/conf/registry.py:85-101 | a category's listing holds exactly the registered settings of that category, once each and in registration order |
| Registry.AllAreListed | awx/conf/registry.py:85-101 | asked for all, or for no category, the listing is every registered setting in order |
| Registry.ReadOnlySplit | awx/conf/registry.py:96-99 | a listed setting is in either the writable or the read-only listing, the installation identifier in both |
| Registry.SettingsRegistry.RegisterSetting | awx/conf/registry.py:37-56 | registers and indexes a setting, or refuses and changes nothing; keeps the index the inverse |
| Registry.SettingsRegistry.UnregisterSetting | awx/conf/registry.py:58-61 | removes a setting from the order and from every index entry |
| Registry.SettingsRegistry.GetRegisteredSettings | awx/conf/registry.py:85-101 | the listing loop gives the settings that pass the category, ignored-slug and read-only filters |
| DeepCopy.CopyIsFresh | awx/api/generics.py:955-986 | the mapping has exactly the tree's objects as keys and distinct new objects as values; what is created is these and one template per approval node, tree size plus approval nodes in number |
| DeepCopy.ClaimIsUnique | awx/api/generics.py:959-964 | no created object is the copy or the template of two objects of the tree |
| DeepCopy.CopyHolds | awx/api/generics.py:919-986 | each object's copy is its clone below the copy of the object it was reached from, with its own template just before it where it is an approval node |
| DeepCopy.CollectAt | awx/api/generics.py:927-953 | each field's keyword ends as that field's own rule says, whatever the other fields do |
| DeepCopyShape.CopyReferences | awx/api/generics.py:946-953 | a foreign key of a copy points to the new parent where the original's pointed to the old one, else to the same object if preserved, else nowhere; an approval node's to its own template |
| DeepCopyShape.CopyData | awx/api/generics.py:950-968 | a copy holds exactly the preserved plain fields its original has, as they decrypt, and belongs to whoever made it |
| DeepCopyShape.TopCopyName | awx/api/generics.py:950-951 | a copy made without a parent has the name asked for, or the original's with a suffix |
| DeepCopyShape.ChildIsBelow | awx/api/generics.py:982-986 | any child of an object of the tree is in the tree and was reached from that object |
| DeepCopyShape.CopyIsIsomorphic | awx/api/generics.py:919-986 | at the root and every object of the tree, through every followed relation, the children of the copy are exactly the copies of the children |
| DeepCopyTask.CloneIsQuiet | awx/api/generics.py:940-964 | making a copy adds no child to any object of the tree being copied |
| DeepCopyTask.Database.BuildKwargs | awx/api/generics.py:919-953 | the loop over fields collects the keywords and the fields to copy links and children of |
| DeepCopyTask.Database.CreateCopy | awx/api/generics.py:955-974 | creates an approval node's template first, then the object, then its links |
| DeepCopyTask.Database.CopyTop | awx/api/generics.py:975-981 | without a parent: one clone, and the list of the objects below the original |
| DeepCopyTask.Database.CopyInto | awx/api/generics.py:919-986 | terminates, and copies an object and everything below it as the tree function says, reading relations from the table it is adding to |
| DeepCopyTask.Database.DeepCopyModelObj | awx/main/tasks/system.py:1100-1151 | copies everything below an object to below its copy and rebuilds the relationships of what was created |
| DeepCopyTask.Database.ReconstructRelationships | awx/main/tasks/system.py:1081-1096 | rebuilds each copy from its original, in any order, and changes no other object |
| DeepCopyTask.Database.RebuildOne | awx/main/tasks/system.py:1084-1096 | the loop over an object's preserved fields fills empty foreign keys and adds mapped links |
| DeepCopyRebuild.RebuildAt | awx/main/tasks/system.py:1084-1095 | each field of a rebuilt copy ends as that field's own rule says |
| DeepCopyRebuild.AddMappedAre | awx/main/tasks/system.py:1092-1095 | adding links keeps those there and adds the image of each other one, each at most once |
| DeepCopyResult.LinksAreCopied | awx/main/tasks/system.py:1092-1095 | a finished copy has exactly the images of its original's preserved links, each once: copies of copied objects, other objects themselves |
| DeepCopyResult.ReferencesAreCopied | awx/main/tasks/system.py:1084-1091 | a foreign key set when the copy was made is left; a preserved one left empty gets the image of the original's |
| DeepCopyResult.PreservedReferenceStays | awx/api/generics.py:946-953 | a preserved reference to anything but the parent is in the finished copy what it was, even if that object was copied too |
| DeepCopyResult.OriginalsUnchanged | awx/main/tasks/system.py:1081-1096 | everything stored before the copy is stored unchanged after it |
| DeepCopyResult.DeepCopyIsIsomorphic | awx/main/tasks/system.py:1135-1146 | the finished copy is the same tree as the original through every followed relation |
| DeepCopyEndpoint.TopRefsOwn | awx/api/generics.py:908-953 | a copy made without a parent refers only to what its original refers to, and an approval node's to its own template |
| DeepCopyEndpoint.TopIsReady | awx/api/generics.py:1001-1025 | after the copy of the object asked for, the tree below the original is as it was, no foreign key dangles, and the copy is outside the tree and referred to by nothing |
| DeepCopyEndpoint.Post | awx/api/generics.py:1001-1025 | one clone of the object, and, if there is anything below it, the background task's copy of all of that |
| DeepCopyOutcomes.PostedCopy | awx/api/generics.py:943-974 | as the endpoint leaves it the copy of the object asked for has exactly its original's preserved links, foreign keys and decrypted plain fields, the name asked for or the old one with a suffix, and belongs to whoever made it |
| DeepCopyOutcomes.TopLinks | awx/api/generics.py:943-974 | a copy made without a parent has exactly the preserved many-to-many links of its original |
| DeepCopyOutcomes.TopReferences | awx/api/generics.py:946-953 | and its preserved foreign keys, but for an approval node's template; others are as the caller's keywords have them |
| DeepCopyOutcomes.TopData | awx/api/generics.py:950-968 | and its plain fields: the new name, the preserved ones as they decrypt, others as the caller gives them |
| DeepCopyOutcomes.CloneAddsTwo | awx/api/generics.py:955-964 | of a node that runs an approval template two objects are made: the template's clone, with the old name and a suffix, and the node's, which runs it |
| DeepCopyOutcomes.BelowExactly | awx/api/generics.py:943-945 | the objects below one are those that refer to it through a preserved one-to-many relation that may be copied |
| DeepCopyOutcomes.FinishedData | awx/api/generics.py:950-968 | a finished copy below holds its original's preserved plain fields as they decrypt, its name among them, and no others |
| DeepCopyOutcomes.FinishedReference | awx/api/generics.py:946-964 | its foreign key is to its own template, to the counterpart of the object its original was reached from, or if preserved to what the original's is to |
| DeepCopyOutcomes.FinishedLinks | awx/main/tasks/system.py:1092-1095 | its preserved links are to the copies of what was copied and to everything else itself, each once |
| DeepCopyEndpoint.EndpointCopyIsIsomorphic | awx/api/generics.py:1001-1025 | what the endpoint leaves is the stored objects unchanged and the whole tree once more: through every followed relation the children of each counterpart are exactly the copies of the children |
| DeepCopyExamples.CopyFinishes | awx/main/tasks/system.py:1081-1096 | for whatever can be copied there is a finished copy |
| DeepCopyExamples.SiblingStaysBehind | awx/api/generics.py:946-953 | of two copied children the second's copy still refers to the first child itself |
| DeepCopyExamples.EndpointFinishes | awx/api/generics.py:1001-1025 | the endpoint's copy of their parent meets all the conditions of the results about it |
| TenantRegistration.PurgedUnique | awx/api/serializers_saas.py:160 | deleting expired registrations keeps keys, identifiers, usernames and addresses unique |
| TenantRegistration.PoolNamesDiffer | awx/api/serializers_saas.py:237 | pool names of different organizations differ although they are cut to 250 characters |
| TenantRuns.RunIsSafe | awx/api/serializers_saas.py:155-261 | in every reachable state registrations are pairwise distinct in identifier, username and address; each verification consumed its own registration before it expired; organizations, users and pools are those at the start and one of each per verification; what was made is named, ignoring case, unlike everything else |
| TenantRuns.ReplayIsRefused | awx/api/serializers_saas.py:217-218 | a used link is refused, changing nothing, in every later state |
| TenantRuns.RivalIsRefused | awx/api/serializers_saas.py:223-226 | of registrations sharing, up to case, an organization name, username or address at most one is ever verified |
| TenantRuns.PoolNameIsFree | awx/api/serializers_saas.py:237-241 | the next pool's name can only be taken by a pool that was there at the start |
| TenantService.ReportedFields | awx/api/serializers_saas.py:171-179 | a field is reported exactly when a pending, unexpired registration that overlaps the form agrees with it there |
| TenantService.RefusedForConsumed | awx/api/serializers_saas.py:193-194 | a request is refused without naming a field if and only if nothing live is in its way and a consumed registration is |
| TenantService.AcceptedIsAlone | awx/api/serializers_saas.py:160-192 | an accepted request's registration is the only unconsumed one that overlaps it |
| TenantService.AcceptedRegistration | awx/api/serializers_saas.py:157-192 | the registration answered with is a live stored one, or a new one holding what the form asks for and expiring when a link does |
| TenantOutcomes.AnsweredWithStored | awx/api/serializers_saas.py:160-170 | a request is answered with a stored registration exactly if that alone waits in its way and asks for the same, names compared without case; the lapsed ones in its way are then gone |
| TenantOutcomes.StoredAsNew | awx/api/serializers_saas.py:160-192 | a new one is stored exactly if nothing that waits or has been used shares identifier, username or address with the request |
| TenantOutcomes.RefusedUnchanged | awx/api/serializers_saas.py:171-194 | every other request is refused, and nothing stored changes |
| TenantService.ResubmissionIsIdempotent | awx/api/serializers_saas.py:160-170 | repeating a request before it expires, its username and address in any case, answers with the first registration, its credentials included, if and only if no other live one overlaps the new writing, and changes nothing if and only if no other unconsumed one does |
| TenantService.AcceptedCanBeVerified | awx/api/serializers_saas.py:209-254 | the link of an accepted request succeeds if and only if it has not expired and the names are still free |
| TenantOutcomes.VerifiesExactly | awx/api/serializers_saas.py:209-226 | a verification provisions if and only if the link names a stored registration with its nonce, under the terms in force, not used, not expired, and all it asks for is free; otherwise nothing changes |
| TenantOutcomes.VerifiedStores | awx/api/serializers_saas.py:228-254 | it then stores one organization, user and pool more, as the registration has them, and the registration as used now |
| TenantService.CaseVariantsCoexist | awx/api/serializers_saas.py:157-161 | two requests whose usernames differ only in case are both stored as pending |
| TenantService.TenantTables.CreateRegistration | awx/api/serializers_saas.py:155-194 | stores a request or answers with the pending one; a refusal rolls back its deletions |
| TenantService.TenantTables.VerifyRegistration | awx/api/serializers_saas.py:209-261 | makes the organization, pool and user and consumes the registration, or leaves everything as it was |
| MeshInvariants.SetPeersSound | awx/api/serializers.py:6725-6752 | the checks on a list of peers are enough for the new links to be sound with each other and all others |
| MeshInvariants.AddressSavedSound | awx/main/models/ha.py:573-592 | peering every control node to a saved address is sound exactly when its instance is not one, peers to none, and none peers to another of its addresses |
| MeshRuns.UpdateIsSound | awx/api/serializers.py:6569-6601 | an accepted update, adding or deleting the canonical address included, keeps the mesh sound exactly under that condition on the state before it |
| MeshRuns.CreateIsSound | awx/api/serializers.py:6584-6601 | the same of an accepted creation |
| MeshRuns.LinksAfterSave | awx/api/serializers.py:6584-6599 | after an update that keeps the port an instance links to exactly the peers it names, control nodes link to the saved row exactly if it asks them to, and all other links are as before |
| MeshRuns.LinksAfterNull | awx/api/serializers.py:6575-6585 | after an update that takes the port away an instance links to exactly the peers it names, and the links to the removed row, and no others, are gone |
| MeshOutcomes.LinksAfterUpdate | awx/main/models/ha.py:573-592 | after an update that writes the address every control and hybrid node links to it exactly if it says so, the instance links to the peers it names, and all other links are as before |
| MeshOutcomes.LinksUnwritten | awx/api/serializers.py:6584-6599 | where the address is not written only the peers named change |
| MeshOutcomes.AddressesAfterSave | awx/api/serializers.py:6586-6599 | the address written has the port and flag asked for, else those it had, else 27199 and no, and replaces the one at the host name; it cannot be written exactly where another instance has one of that name |
| MeshOutcomes.AddressesAfterNull | awx/api/serializers.py:6575-6577 | with the port null all addresses but the one at the host name stay |
| MeshOutcomes.CreateIsUpdate | awx/api/serializers.py:6569-6605 | a creation stores what updating the new instance does |
| MeshRuns.RunIsSound | awx/api/serializers.py:6569-6758 | over a whole run no instance ever peers to itself, back to a peer, or twice to one instance, if and only if every request met the condition |
| MeshRuns.WithoutControlsSound | awx/api/serializers.py:6725-6752 | where there are no control nodes every run keeps the mesh sound |
| MeshRuns.MutualPeersAreAccepted | awx/main/models/ha.py:573-586 | a new node that peers to a control node and asks control nodes to peer to it is accepted, and the two peer to each other |
| MeshOutcomes.RequestsAccepted | awx/api/serializers.py:6667-6684 | creations are accepted of execution and hop nodes on Kubernetes under names not in use |
| MeshOutcomes.UpdateAcceptedExactly | awx/api/serializers.py:6674-6758 | an update is accepted exactly if its port, its flag and its peers are allowed |
| MeshOutcomes.CreateAcceptedExactly | awx/api/serializers.py:6674-6730 | a creation exactly if it names one address each of other instances and does not ask control nodes to peer in with a null port |
| MeshOutcomes.PeersAcceptedExactly | awx/api/serializers.py:6725-6752 | a list of peers exactly if it names one address each of instances that do not peer back, none its own, and of a managed instance or outside Kubernetes just the peers there are |
| MeshOutcomes.ManagedKeepsPeers | awx/api/serializers.py:6734-6740 | an accepted update of a managed instance, or outside Kubernetes, names its peers as they are |
| MeshRuns.PortAfterUpdate | awx/api/serializers.py:6569-6599 | after an update an instance has no port if null was given, the number given, or else the port it had |
| MeshRuns.NullRemoves | awx/api/serializers.py:6575-6577 | an explicit null leaves the instance no row at its host name |
| MeshRuns.PortOnlyZeroed | awx/api/serializers.py:6712-6723 | a port in use changes to another number if and only if the number asked for is zero |
| MeshRuns.ZeroIsAccepted | awx/api/serializers.py:6712-6723 | port zero is accepted for any instance that is not managed and has a port in use, and becomes its port |
| MeshRuns.FlagMakesNoAddress | awx/api/serializers.py:6586-6599 | asking for control nodes to peer in, without a port, never makes an address, on a new instance or an old one |
| MeshRuns.ManagedKeepsAddress | awx/api/serializers.py:6712-6758 | an accepted update of a managed instance changes neither its port nor whether control nodes peer to it |
| MeshRuns.PortIsKept | awx/api/serializers.py:6712-6723 | over a run that asks for no port zero, a port stays the same for as long as the instance has one |
| MeshService.MeshTables.ValidatePeers | awx/api/serializers.py:6725-6752 | accepts a list of peers exactly when each instance appears once, no change is forbidden, none is the instance's own and none peers back |
| MeshService.MeshTables.CreateOrUpdate | awx/api/serializers.py:6569-6601 | writes the instance, its peers and its canonical address, or leaves the tables as they were |
| MeshService.MeshTables.ReceptorAddressSaved | awx/main/models/ha.py:573-592 | peers every control node to the saved address, or none |
| MetaFields.BuiltIsClean | awx/api/serializers.py:304-330 | over any class hierarchy a built list has no name twice, no star and no exclusion |
| MetaFields.NoMetaInherits | awx/api/serializers.py:345-350 | a class without a Meta of its own has the inherited list unchanged |
| MetaFields.BuiltIsFirsts | awx/api/serializers.py:304-330 | a class's list is each name where it first occurs once every star stands for the bases' lists in full, the last base first, without the names it excludes |
| MetaFields.ExclusionIsUndone | awx/api/serializers.py:304-330 | a field one base excludes is in the list exactly when another base supplies it and the class does not exclude it |
| MetaFields.UpdateMeta | awx/api/serializers.py:304-330 | the loops merge one base's list, or expand the class's own, as those functions say |
| MetaFields.BuildMeta | awx/api/serializers.py:345-350 | merging the bases in reverse and then the own Meta gives the built list |
| BulkLaunch.AcceptedJobs | awx/api/serializers.py:5794-5828 | accepted jobs are the requested ones in order, each with its own identifier, of a stored template of a type that can be run in bulk and that the user may run, asking only for objects the user may use |
| BulkLaunch.AcceptedExactly | awx/api/serializers.py:5794-5857 | a request is accepted exactly if it is not too long, repeats no identifier, may use its organization and inventory, and every job runs a stored template of an allowed type that the user may run, with objects the user may use |
| BulkLaunch.UnknownExactly | awx/api/serializers.py:5985-5999 | it fails over an unknown template exactly if it has one and nothing else is wrong |
| BulkLaunch.ThroughIsRequested | awx/api/serializers.py:5942-5958 | with an identifier to each job the through rows of a kind are exactly the requested pairs of node and object |
| BulkLaunch.SharedIdentifierLoses | awx/api/serializers.py:5915-5940 | of two jobs under one identifier the first loses everything it asks for |
| BulkLaunch.LaunchConserves | awx/api/serializers.py:5883-5958 | for an accepted request there is a node per job, and an object is on a node exactly when the job at its place asked for it |
| BulkLaunch.Validate | awx/api/serializers.py:5794-5857 | the loop refuses repeated identifiers and names the jobs that bring none; then types, permissions and the request's own organization and inventory are checked |
| BulkLaunch.CreateNodes | awx/api/serializers.py:5915-5940 | the loop builds one node per job and remembers its objects under its identifier |
| BulkLaunch.AttachObjects | awx/api/serializers.py:5944-5958 | the nested loops make the through rows of what is remembered |
| Subscriptions.MembershipsAreTracked | awx/main/consumers.py:168-220 | in every reachable state the channel's memberships are what the session remembers and exactly what it lost track of at a malformed message |
| Subscriptions.MalformedLeavesMember | awx/main/consumers.py:198-220 | a session granted a group and then sent a malformed message leaves its channel in that group when it closes |
| Subscriptions.ListsKeepTrack | awx/main/consumers.py:144-220 | on runs where every value is a list the session remembers exactly the memberships, and none are left after a disconnect |
| Subscriptions.ReportsAddUp | awx/main/consumers.py:198-220 | the reported left and joined groups turn the old groups into the current ones |
| Subscriptions.ReceivesExactly | awx/main/consumers.py:168-220 | a message without the session's token changes nothing; one that asks for something other than a list makes the session forget; any other makes the groups asked for and allowed the session's, and changes its channel's memberships by the difference |
| Subscriptions.ClosesExactly | awx/main/consumers.py:144-155 | closing takes the channel, and no other, out of all it remembered |
| Subscriptions.OthersUntouched | awx/main/consumers.py:168-220 | a channel's messages never change another channel's memberships |
| Subscriptions.EventConsumer.ReceiveJson | awx/main/consumers.py:168-220 | a message is denied, ignored, or replaces the session's groups and memberships |
| Subscriptions.EventConsumer.Close | awx/main/consumers.py:144-155 | closing discards every remembered membership |
| OrderedMany.StepOwn | awx/main/fields.py:873-881 | one addition or removal extends or cuts the owner's list, numbers it from zero, and leaves other owners' rows as they were |
| OrderedMany.RunIsAList | awx/main/fields.py:842-881 | after any additions and removals, reading by position gives the surviving members in the order they were added, at positions 0, 1, 2 and so on |
| OrderedMany.SortedIsOrdered | awx/main/fields.py:842-843 | whatever the positions are, reading gives the same rows in order of position, those without one last |
| OrderedMany.ThroughTable.UpdatePositions | awx/main/fields.py:873-881 | the loop gives each of the owner's rows its place in order of id as its position |
| RelayToken.ConstructParses | awx/main/consumers.py:31-53 | a constructed token parses back into its nonce text and digest |
| RelayToken.AcceptedInWindow | awx/main/consumers.py:31-73 | a token is accepted by a holder of the same secret if and only if it is at most 300 seconds from its making |
| RelayToken.AcceptedIsAuthentic | awx/main/consumers.py:42-73 | whatever is accepted is the scheme, a nonce text and the digest rebuilt from that text, the nonce within the window |
| RelayToken.OtherSecretRefused | awx/main/consumers.py:63-64 | a holder of another secret whose digest of the nonce differs refuses the token |

## Left out

- SettingsRuns.BoundedStaleness: the tracked key has no callable default; its stored values and default are not sentinel strings; its first row, if null, is followed by null rows only and goes with a default that reads as unset; an encrypted key's stored texts and default, if it has one, are text or null and do not begin like sealed text.
- SettingsFiles.FilesShadowTheTable: the file's value can be represented and is not a sentinel string, or, for an encrypted key, sealed text.
- SettingsPreload.PreloadRefinesSingleRead: as SettingsRuns.BoundedStaleness, but the first row may be null whatever the default; nothing is lost.
- SettingsComputed.ComputedStaleness: the setting is read-only and its source is tracked as for SettingsRuns.BoundedStaleness; what is computed is no sentinel string but "not set", and for an encrypted setting null or plain text.
- SettingsWrites.SetThenRead: a null is stored only where the setting has one global row at most, what is stored is no sentinel string and plain text for an encrypted setting, and the delete of the last signal is not lost.
- SettingsWrapper.SettingsWrapper.LoadDefaults: a writable setting that has no value in the settings files and a default computed from another setting stays "not set" in a preload, where the source would call the default; no registered setting is one, since the file value is installed as the default of those that have one (awx/conf/registry.py:156-158, awx/settings/defaults.py:561).
- Reads, preloads and signals are single steps of a run; two reads interleaving within one another, thread locks, asynchronous contexts and the cleanup after a fork are not modelled.
- Database errors, and with them the fallback of a read to the files when the table cannot be reached.
- A memo holds any number of entries; eviction at 2048 of them is not modelled.
- Callable defaults whose source setting has a callable default of its own, and a setting whose name is another's with `_ID` after it.
- The license-dependent read-only rule for one analytics setting, per-user settings rows, and the `user` and `changed` categories of the endpoint.
- SettingsView.PutBackIsNoOp: the text of a value that is no text does not begin like sealed text; a category's own check is any function of what is shown and what is to be written, and never rewrites what is to be written; no registered one does.
- Cryptography: sealing and opening are a pair of functions that undo each other under one key and refuse another; digests are an uninterpreted function; password hashing and token signing are parameters.
- Field classes: representing, validating and converting a value are parameters of the site, each of which may raise.
- DeepCopyTask.Database.DeepCopyModelObj: does not model rows deleted while it runs, access checks on what is copied, or many-to-many relations read from both ends of one table.
- DeepCopy.CollectAt: the decryption of preserved values is a parameter, and the keywords a caller passes in are taken as given.
- TenantRuns.RunIsSafe: organizations and users made by other endpoints during the run are not modelled; the checks made before a request is stored are not relied on.
- TenantRegistration.PoolNamesDiffer: for keys of at most 19 digits, which covers every key the database can give out.
- Case folding is one function for Python and the database, which may differ on unusual letters.
- MeshRuns.RunIsSound: requests to other endpoints, tenant ownership rules and access checks are not modelled; an instance's canonical rows are taken to be at its host name, which this endpoint keeps.
- BulkLaunch.LaunchConserves: permission queries, and whether an organization can be chosen for the request, are parameters, and a request naming an unknown template fails before anything is built.
- MetaFields.BuiltIsFirsts: only lists of names; inherited keyword dictionaries and other attributes are not modelled.
- Host creation in bulk, access classes, renderers, metadata, pagination, routing, email delivery and bot challenges.
