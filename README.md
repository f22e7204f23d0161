# EstesioTech core, modelled in Dafny

EstesioTech is an Android app for the monofilament sensitivity test used in leprosy care.
A clinician examines the four limbs of a patient. For each limb they arm a point on the
drawing, and an ESP32 probe on Bluetooth LE streams the monofilament level felt there, then
the line "Enviado" to commit it. Finished limbs wait in a process-wide session cache. Once
all four are done, the evaluation is written as one batch of records, each carrying the
limb's WHO disability grade. The records are later read back as a patient history, a list
of recent patients and a report.

This project models that core and proves what it promises:

- `measurement.dfy` (module `Measurement`): the point-measurement handshake of the limb test
  screen. It has a pure state machine over classified probe lines and the `TestSession`
  class proved against it.
- `session.dfy` (module `Session`): the shared `SessionCache`.
- `selection.dfy` (module `Selection`): the limb selection screen.
  - Its state: the completion gate, the redo dialog, the deformity flag and finalisation.
  - The report's tables: summary grade, risk and grade texts, level descriptions, point
    colour, point order and limb labels.
- `cloud.dfy` (module `Cloud`): the per-limb grade, the batch of test records built by
  `saveCompleteSession`, and the clinician's displayed first name.
- `history.dfy` (module `History`): `getGroupedHistory` and `getRecentPatients` over the
  stored test documents as a sequence of rows. Each imperative loop is proved equal to a
  recursive definition. That definition is characterised against independent references:
  the first row of each patient or session, the maximum grade, and the newest row.
- `ble.dfy` (module `Ble`): the `BleManager` link state machine. Listener calls are an
  appended log of notices, and GATT callbacks are input events.
- `device_control.dfy` (module `DeviceControl`): the probe terminal screen. It registers as
  the listener, connects, turns link events into chat lines and has the keep-alive teardown.
- `home.dfy` (module `Home`): CPF entry (the CPF is the Brazilian taxpayer number that
  identifies a patient). This covers the digit filter, the display mask and new-patient
  validation.
- `text.dfy`, `sorting.dfy`, `wrappers.dfy`, `sets.dfy`: Kotlin library behaviour the core
  relies on.
  - Text: `trim`, `equals(ignoreCase)`, `toIntOrNull`, `Int.toString`, `Long.toInt`,
    `split(" ").first()`, `replace`/`uppercase`, `contains`, `filter { isDigit() }`.
  - Sorting: the stable `sortedByDescending`.
  - Wrappers: `Option`/`Result`.
  - Sets: witnesses for non-empty sets.

Most screens exist twice: an older copy directly under the package and a newer one under
`ui/screens/` or `data/cloud/`. Their logic is the same, so each pair is modelled once and
the table cites both copies. The copies differ only in the report: the older one prints a
grade text and a `MEMBRO` fallback label, the newer one a risk banner, a level table and
`NULL` for a missing part. Both variants are modelled.

Four behaviours of the code worth knowing, all modelled as the code has them:

- `disconnect()` without a GATT session is a no-op that notifies nobody.
- Saving a limb to the cache does not clear the screen's results.
- A hardware disconnect keeps `connectedDeviceAddress`.
- `getRecentPatients` with `limit <= 0` still returns one entry, because the limit is
  checked after adding.

## Model

| member | source | states |
|---|---|---|
| Measurement.PointCountOfLimbs | app/src/main/java/com/code/EstesioTech/ui/screens/TesteActivity.kt:190-267 | hands (part names containing "mao") have 6 points, feet 9; the older copy TesteActivity.kt:176-252 does the same |
| Measurement.Classify | app/src/main/java/com/code/EstesioTech/ui/screens/TesteActivity.kt:143-157 | a line is Confirm iff its trimmed text equals "Enviado" ignoring case; Number(v) iff the trimmed text parses as a 32-bit integer v; otherwise Other; the older copy TesteActivity.kt:130-144 does the same |
| Measurement.ClassifyReading | app/src/main/java/com/code/EstesioTech/ui/screens/TesteActivity.kt:144-157 | any 32-bit level written with surrounding whitespace is read back as that level |
| Measurement.ClassifyConfirm | app/src/main/java/com/code/EstesioTech/ui/screens/TesteActivity.kt:144-145 | the confirm token is recognised in any letter case and with surrounding whitespace |
| Measurement.ExampleLines | app/src/main/java/com/code/EstesioTech/ui/screens/TesteActivity.kt:144-157 | "1", "2", "3", "0" are readings and "Enviado" is the confirm |
| Measurement.Select | app/src/main/java/com/code/EstesioTech/ui/screens/TesteActivity.kt:112-118 | while not saving, selecting arms the point and zeroes the live and last-valid values; while saving nothing changes; results are untouched; the older copy TesteActivity.kt:98-104 does the same |
| Measurement.Close | app/src/main/java/com/code/EstesioTech/ui/screens/TesteActivity.kt:119 | cancelling disarms and leaves results and the last valid value untouched; the older copy TesteActivity.kt:105 does the same |
| Measurement.Step | app/src/main/java/com/code/EstesioTech/ui/screens/TesteActivity.kt:143-162 | a line that is neither the confirm token nor an integer changes nothing; a reading changes neither the armed point nor the results; a confirm with a point armed and a positive last reading commits that reading to the point and disarms; otherwise results change only on such a confirm, and other points' results are never touched; the older copy TesteActivity.kt:130-149 does the same |
| Measurement.RunKeepsValid | app/src/main/java/com/code/EstesioTech/ui/screens/TesteActivity.kt:143-162 | any stream of lines keeps the armed index on a point or none and every result a positive level on a point |
| Measurement.RunKeepsMeasuredPoints | app/src/main/java/com/code/EstesioTech/ui/screens/TesteActivity.kt:150 | committed points are never lost while measuring |
| Measurement.RunReadings | app/src/main/java/com/code/EstesioTech/ui/screens/TesteActivity.kt:156-160 | after readings the live value is the last reading (including 0) and the last valid value the last positive one; the older copy TesteActivity.kt:143-146 does the same |
| Measurement.LastNonZeroWins | app/src/main/java/com/code/EstesioTech/ui/screens/TesteActivity.kt:145-160 | readings then the confirm commit the last positive reading to the armed point, overwriting, and disarm; with no positive reading nothing is committed; the older copy TesteActivity.kt:132-146 does the same |
| Measurement.ConfirmWithoutReading | app/src/main/java/com/code/EstesioTech/ui/screens/TesteActivity.kt:148 | the confirm with no armed point or no positive reading changes nothing; the older copy TesteActivity.kt:135 does the same |
| Measurement.ExampleSession | app/src/main/java/com/code/EstesioTech/ui/screens/TesteActivity.kt:112-160 | after selecting a point, the lines 1, 2, 3, 0, Enviado commit level 3 to it |
| Measurement.CommitClosesDialog | app/src/main/java/com/code/EstesioTech/ui/screens/TesteActivity.kt:207 | a commit closes the measurement dialog and enables save (save needs not saving and a non-empty result); the older copy TesteActivity.kt:193 does the same |
| Measurement.SelectOpensDialog | app/src/main/java/com/code/EstesioTech/ui/screens/TesteActivity.kt:274 | the dialog shows iff a point is armed and not saving: selecting opens it unless saving, cancelling closes it; the older copy TesteActivity.kt:259 does the same |
| Measurement.TestSession.constructor | app/src/main/java/com/code/EstesioTech/ui/screens/TesteActivity.kt:47-65 | the screen starts disarmed with zero readings and no results; the body part defaults to "mao_direita" |
| Measurement.TestSession.SelectPoint | app/src/main/java/com/code/EstesioTech/ui/screens/TesteActivity.kt:112-118 | the fields change exactly as Select says, keeping the invariant |
| Measurement.TestSession.CloseMeasurement | app/src/main/java/com/code/EstesioTech/TesteActivity.kt:105 | the fields change exactly as Close says |
| Measurement.TestSession.OnDataReceived | app/src/main/java/com/code/EstesioTech/ui/screens/TesteActivity.kt:143-162 | the fields change exactly as Step of the classified line says, keeping the invariant; a line that classifies as neither confirm nor number leaves every field as it was; the older copy TesteActivity.kt:130-149 does the same |
| Measurement.TestSession.SaveResultsToCache | app/src/main/java/com/code/EstesioTech/ui/screens/TesteActivity.kt:133-141 | refused with the cache unchanged when there are no results; otherwise only this body part's entry becomes the results; the older copy TesteActivity.kt:119-128 does the same |
| Session.SessionCache.Clear | app/src/main/java/com/code/EstesioTech/ui/screens/SelectionActivity.kt:56-59 | `clear` empties the cache |
| Session.SessionCache.Put | app/src/main/java/com/code/EstesioTech/ui/screens/TesteActivity.kt:138 | storing a limb adds or overwrites that key only |
| Session.SessionCache.Remove | app/src/main/java/com/code/EstesioTech/SelectionActivity.kt:319 | removing a part drops exactly that key |
| Selection.OnCreate | app/src/main/java/com/code/EstesioTech/ui/screens/SelectionActivity.kt:90-92 | the cache is cleared on a fresh creation and kept on re-creation; the older copy SelectionActivity.kt:70-72 does the same |
| Selection.AllCompletedIffEveryLimb | app/src/main/java/com/code/EstesioTech/ui/screens/SelectionActivity.kt:419 | with only limb keys in the cache, the gate `size >= 4` opens iff all four limbs are done; the older copy SelectionActivity.kt:282 does the same |
| Selection.SelectionScreen.constructor | app/src/main/java/com/code/EstesioTech/ui/screens/SelectionActivity.kt:348 | completed parts start as the cache's key set, with no dialog open and no deformity flag |
| Selection.SelectionScreen.OnResume | app/src/main/java/com/code/EstesioTech/ui/screens/SelectionActivity.kt:357 | on resume, completed parts are re-read from the cache; the older copy SelectionActivity.kt:209-211 does the same |
| Selection.SelectionScreen.TapCard | app/src/main/java/com/code/EstesioTech/ui/screens/SelectionActivity.kt:386-400 | a completed part opens the redo dialog; any other part navigates to its test; the older copy SelectionActivity.kt:241-256 does the same |
| Selection.SelectionScreen.ConfirmRedo | app/src/main/java/com/code/EstesioTech/ui/screens/SelectionActivity.kt:456-460 | confirming redo removes exactly that part from the cache, recomputes completed parts, closes the dialog and navigates to the part's test; the older copy SelectionActivity.kt:318-323 does the same |
| Selection.SelectionScreen.DismissRedo | app/src/main/java/com/code/EstesioTech/ui/screens/SelectionActivity.kt:452 | dismissing closes the redo dialog and changes nothing else |
| Selection.SelectionScreen.ToggleDeformities | app/src/main/java/com/code/EstesioTech/ui/screens/SelectionActivity.kt:407 | the deformity card flips the flag; the older copy SelectionActivity.kt:263 does the same |
| Selection.SelectionScreen.Finalize | app/src/main/java/com/code/EstesioTech/ui/screens/SelectionActivity.kt:421-426 | the enabled button saves the whole cache with the current deformity flag as one batch (or fails with "Não logado") and opens the final dialog; the older copy SelectionActivity.kt:284-296 does the same |
| Selection.SummaryGrade | app/src/main/java/com/code/EstesioTech/ui/screens/SelectionActivity.kt:253 | the summary grade is the largest record grade, 0 when there are no records; the older copy SelectionActivity.kt:114 does the same |
| Selection.SummaryOfSavedSession | app/src/main/java/com/code/EstesioTech/ui/screens/SelectionActivity.kt:253 | over a saved evaluation, the summary is a WHO grade 0..2, equals 2 iff deformities were flagged, and is at least 1 if any point reached level 5 |
| Selection.RiskTextMeaning | app/src/main/java/com/code/EstesioTech/ui/screens/SelectionActivity.kt:255 | the banner is "SENSIBILIDADE PRESERVADA (GRAU 0)" iff the grade is not positive; otherwise it names the grade, which parses back |
| Selection.GradeTextMeaning | app/src/main/java/com/code/EstesioTech/SelectionActivity.kt:115-119 | grades 0 and 1 get their own labels; every other grade gets the grade-2 label |
| Selection.LevelDescriptionInjective | app/src/main/java/com/code/EstesioTech/ui/screens/SelectionActivity.kt:290-298 | the description table is total and no two levels share a description (1..6 fixed labels, others "Nível n") |
| Selection.LevelOfStoredRoundTrip | app/src/main/java/com/code/EstesioTech/ui/screens/SelectionActivity.kt:288 | a level written as 32-bit integer text reads back unchanged |
| Selection.LevelOfStoredDefault | app/src/main/java/com/code/EstesioTech/ui/screens/SelectionActivity.kt:288 | text that is not a 32-bit integer reads as level 0, described as "Nível 0"; the older copy SelectionActivity.kt:151 does the same |
| Selection.RedPointsAreLosses | app/src/main/java/com/code/EstesioTech/ui/screens/SelectionActivity.kt:300 | a point is red iff its level is at least 3; on levels 1..6 these are exactly the levels described as a "Perda" |
| Selection.KeyLeIsPreorder | app/src/main/java/com/code/EstesioTech/ui/screens/SelectionActivity.kt:285 | string key order is a total preorder, so `toSortedMap` order is well defined |
| Selection.DigitKeysInNumericOrder | app/src/main/java/com/code/EstesioTech/ui/screens/SelectionActivity.kt:285 | for single-digit point keys, string order is numeric order |
| Selection.SortedKeys | app/src/main/java/com/code/EstesioTech/ui/screens/SelectionActivity.kt:285 | the sorted keys are every key once, ascending |
| Selection.SortedPointsListsEachPointOnce | app/src/main/java/com/code/EstesioTech/ui/screens/SelectionActivity.kt:284-288 | the report lists every point once, with its stored value, in ascending key order |
| Selection.LimbLabelShape | app/src/main/java/com/code/EstesioTech/SelectionActivity.kt:146 | the label is the part name with "_" as a space, upper-cased, same length; the newer copy ui/screens/SelectionActivity.kt:275-276 does the same |
| Cloud.MaxLevel | app/src/main/java/com/code/EstesioTech/data/cloud/EstesioCloud.kt:117 | the maximum level of the limb, attained at some point, 0 for an empty limb |
| Cloud.LimbGrade | app/src/main/java/com/code/EstesioTech/data/cloud/EstesioCloud.kt:117-118 | grade 2 iff deformities; else 1 iff some point is at level 5 or more; else 0; the older copy EstesioCloud.kt:125-126 does the same |
| Cloud.EmptyLimbGrade | app/src/main/java/com/code/EstesioTech/data/cloud/EstesioCloud.kt:117-118 | an empty limb grades 0 unless deformities are flagged |
| Cloud.LimbGradeMonotone | app/src/main/java/com/code/EstesioTech/data/cloud/EstesioCloud.kt:117-118 | raising a point's level never lowers the grade |
| Cloud.TestIdParts | app/src/main/java/com/code/EstesioTech/data/cloud/EstesioCloud.kt:115 | the document id is the session id, "_", then the body part |
| Cloud.TestIdInjective | app/src/main/java/com/code/EstesioTech/EstesioCloud.kt:123 | within a session, different limbs get different ids |
| Cloud.PointsData | app/src/main/java/com/code/EstesioTech/data/cloud/EstesioCloud.kt:124 | `pointsData` has exactly the limb's entries with keys as decimal text |
| Cloud.PointsDataRoundTrip | app/src/main/java/com/code/EstesioTech/EstesioCloud.kt:132 | parsing the stored keys gives back the limb's points; no two points collide |
| Cloud.BatchIdsDistinct | app/src/main/java/com/code/EstesioTech/data/cloud/EstesioCloud.kt:113-126 | the writes of one batch have distinct document ids |
| Cloud.BatchSize | app/src/main/java/com/code/EstesioTech/EstesioCloud.kt:122-135 | a batch holds exactly one write per tested limb |
| Cloud.SaveCompleteSession | app/src/main/java/com/code/EstesioTech/data/cloud/EstesioCloud.kt:108-129 | without a user it fails with "Não logado" and builds nothing; otherwise one write per limb, each the limb's record with the shared header, grade and stringified points; the older copy EstesioCloud.kt:117-137 does the same |
| Cloud.UserDisplayName | app/src/main/java/com/code/EstesioTech/EstesioCloud.kt:56-63 | the name shown is the first space-separated word of the stored name, or "Doutor(a)" without a user or name; the newer copy data/cloud/EstesioCloud.kt:64-75 does the same |
| Cloud.UserDisplayNameExample | app/src/main/java/com/code/EstesioTech/EstesioCloud.kt:60 | "Ana Maria Souza" is shown as "Ana" |
| Text.ToInt32 | app/src/main/java/com/code/EstesioTech/data/cloud/EstesioCloud.kt:151 | `Long.toInt()` keeps values in 32-bit range and wraps the others modulo 2^32 |
| History.FindPatient | app/src/main/java/com/code/EstesioTech/data/cloud/EstesioCloud.kt:153 | the patient entry for a cpf is the first one with that cpf, or none |
| History.FindSession | app/src/main/java/com/code/EstesioTech/data/cloud/EstesioCloud.kt:155 | `sessions.find` gives the first session with that id, or none |
| History.FirstPatientRow | app/src/main/java/com/code/EstesioTech/data/cloud/EstesioCloud.kt:153 | reference: the first document of a patient, which `getOrPut` takes the name from |
| History.FirstSessionRow | app/src/main/java/com/code/EstesioTech/data/cloud/EstesioCloud.kt:156 | reference: the first document of a session, which the session takes its date from |
| History.MaxGifOf | app/src/main/java/com/code/EstesioTech/data/cloud/EstesioCloud.kt:156-157 | reference: max(0, grades of the session's documents) |
| History.GroupAgrees | app/src/main/java/com/code/EstesioTech/data/cloud/EstesioCloud.kt:146-157 | rows without cpf or session id are skipped; one entry per cpf named from its first document; one session per (cpf, session id) dated from its first document with max(0, grades); the older copy EstesioCloud.kt:154-166 does the same |
| History.GroupHistory | app/src/main/java/com/code/EstesioTech/data/cloud/EstesioCloud.kt:145-157 | the imperative loop builds exactly the grouping; the older copy EstesioCloud.kt:153-166 does the same |
| History.AddDocument | app/src/main/java/com/code/EstesioTech/data/cloud/EstesioCloud.kt:153-157 | one kept document: its patient is found or appended (`getOrPut`) and its session recorded, exactly the grouping step whose outcome GroupAgrees characterises; the older copy EstesioCloud.kt:161-165 does the same |
| History.RecordSession | app/src/main/java/com/code/EstesioTech/data/cloud/EstesioCloud.kt:155-157 | the session search, the append of a missing session dated from the document with grade 0, and the raise of `maxGif`, equal the merge step |
| History.NewerIsPreorder | app/src/main/java/com/code/EstesioTech/data/cloud/EstesioCloud.kt:160-162 | both sort keys are total preorders |
| History.SortHistoryOrder | app/src/main/java/com/code/EstesioTech/data/cloud/EstesioCloud.kt:160-162 | sessions newest first in each patient, patients by newest session, newest first, only reordered; the older copy EstesioCloud.kt:169-174 does the same |
| History.NewestDateIsNewest | app/src/main/java/com/code/EstesioTech/EstesioCloud.kt:173 | a patient's sort key is the date of its newest session (0 with no session) |
| History.GetGroupedHistory | app/src/main/java/com/code/EstesioTech/data/cloud/EstesioCloud.kt:141-167 | "Não logado" without a user; otherwise the grouping, sorted; the older copy EstesioCloud.kt:149-179 does the same |
| History.NewerRowIsPreorder | app/src/main/java/com/code/EstesioTech/data/cloud/EstesioCloud.kt:175 | the date order of documents (missing date as 0) is a total preorder |
| History.FirstCpfRow | app/src/main/java/com/code/EstesioTech/data/cloud/EstesioCloud.kt:178-179 | reference: the first document of a cpf in the sorted order |
| History.DedupSpec | app/src/main/java/com/code/EstesioTech/data/cloud/EstesioCloud.kt:177-181 | de-duplication keeps one entry per cpf, from its first document, in first-appearance order, and leaves no cpf out |
| History.DedupPrefix | app/src/main/java/com/code/EstesioTech/data/cloud/EstesioCloud.kt:182 | stopping early gives a prefix of the full de-duplication |
| History.GetRecentPatients | app/src/main/java/com/code/EstesioTech/data/cloud/EstesioCloud.kt:169-187 | "Não logado" without a user; otherwise the first max(limit, 1) de-duplicated entries of the date-descending rows; the older copy EstesioCloud.kt:181-199 does the same |
| History.CollectRecent | app/src/main/java/com/code/EstesioTech/data/cloud/EstesioCloud.kt:177-183 | the loop over the sorted documents (skip a missing or seen cpf, add, stop once `limit` entries exist) yields the first max(limit, 1) entries of the de-duplication; the older copy EstesioCloud.kt:189-195 does the same |
| History.NewestOfPatient | app/src/main/java/com/code/EstesioTech/data/cloud/EstesioCloud.kt:175 | a patient's first document in sorted order is its newest |
| History.RecentIsNewestPerPatient | app/src/main/java/com/code/EstesioTech/data/cloud/EstesioCloud.kt:175-183 | at most max(limit, 1) entries, one per cpf, each from the patient's newest document; a shorter list names every patient; the older copy EstesioCloud.kt:187-195 does the same |
| Sorting.SortBy | app/src/main/java/com/code/EstesioTech/EstesioCloud.kt:187 | `sortedByDescending`: a permutation, ordered by the key |
| Sorting.SortIsStable | app/src/main/java/com/code/EstesioTech/data/cloud/EstesioCloud.kt:161-162 | the sort is stable: elements tied under the order keep their original relative order, so sessions sharing a date (and, in the document sort at line 175, documents sharing a date) stay in query order |
| Ble.SetListenerReplaces | app/src/main/java/com/code/EstesioTech/BleManager.kt:37-39 | `setListener` swaps the listener without telling either and without touching the link; later notices go to the new one only |
| Ble.DetachedHearsNothing | app/src/main/java/com/code/EstesioTech/BleManager.kt:37-39 | with the listener set to null no operation notifies anyone, and nothing disconnects |
| Ble.ReconnectSameAddress | app/src/main/java/com/code/EstesioTech/BleManager.kt:53-57 | connecting to the connected address keeps the session and re-fires `onConnected` |
| Ble.ConnectElsewhereDisconnectsFirst | app/src/main/java/com/code/EstesioTech/BleManager.kt:60-62 | connecting elsewhere while connected first closes the session and notifies `onDisconnected` |
| Ble.ConnectAddress | app/src/main/java/com/code/EstesioTech/BleManager.kt:59-80 | a malformed address reports "Endereço MAC inválido." and opens nothing; a valid one opens a fresh session and becomes the connected address; stated for the corrected connect and for the connect as written, under which a pending session is not released: it stays open and, on a malformed address, stays the current one |
| Ble.DisconnectResets | app/src/main/java/com/code/EstesioTech/BleManager.kt:83-99 | without a GATT, a no-op; with one, it ends with no session, not connected, no address and one `onDisconnected` |
| Ble.ConnectedOnlyAfterDiscovery | app/src/main/java/com/code/EstesioTech/BleManager.kt:103-143 | the transport coming up sets connected but notifies nobody; `onConnected` fires iff discovery succeeded with service, characteristic and descriptor |
| Ble.HardwareDisconnect | app/src/main/java/com/code/EstesioTech/BleManager.kt:110-117 | a lost link clears the flag and the session and notifies, keeping the address |
| Ble.ConnectLeaksPendingSession | app/src/main/java/com/code/EstesioTech/BleManager.kt:51-81 | as written, a second connect before the first is connected leaves the first session open and unreachable |
| Ble.TidyPreserved | app/src/main/java/com/code/EstesioTech/BleManager.kt:51-118 | with the release before every new session, no operation leaves any session open but the current one |
| Ble.BleManager.SetListener | app/src/main/java/com/code/EstesioTech/BleManager.kt:37-39 | the object's fields change as `setListener` says |
| Ble.BleManager.IsConnected | app/src/main/java/com/code/EstesioTech/BleManager.kt:41 | `isConnected()` is the connected flag; on a valid link it is true only while a current, open session is held |
| Ble.BleManager.ConnectToDevice | app/src/main/java/com/code/EstesioTech/BleManager.kt:51-81 | the fields change as the corrected connect says, keeping the invariant |
| Ble.BleManager.Disconnect | app/src/main/java/com/code/EstesioTech/BleManager.kt:83-99 | the fields change as `disconnect` says |
| Ble.BleManager.OnConnectionStateChange | app/src/main/java/com/code/EstesioTech/BleManager.kt:102-118 | the fields change as the state callback says, keeping the invariant |
| Ble.BleManager.OnServicesDiscovered | app/src/main/java/com/code/EstesioTech/BleManager.kt:120-147 | the fields change as the discovery callback says |
| Ble.BleManager.OnCharacteristicChanged | app/src/main/java/com/code/EstesioTech/BleManager.kt:149-158 | received text is passed to the listener |
| DeviceControl.MessageRoundTrip | app/src/main/java/com/code/EstesioTech/DeviceControlActivity.kt:83-97 | data becomes a RECEIVED line with its text, status a SYSTEM line, and every line reads back as its event |
| DeviceControl.EveryNoticeShown | app/src/main/java/com/code/EstesioTech/DeviceControlActivity.kt:83-97 | every event addressed to the screen has its line |
| DeviceControl.TranscriptAppend | app/src/main/java/com/code/EstesioTech/DeviceControlActivity.kt:83-97 | lines are appended in arrival order |
| DeviceControl.StartupListens | app/src/main/java/com/code/EstesioTech/DeviceControlActivity.kt:40-46 | the screen becomes the listener; a connect happens only with an address extra |
| DeviceControl.StartupOrder | app/src/main/java/com/code/EstesioTech/DeviceControlActivity.kt:42-46 | a connect notice during `onCreate` is shown before "Conectando a …"; from no session, "Conectando a …" comes first |
| DeviceControl.TeardownSilent | app/src/main/java/com/code/EstesioTech/DeviceControlActivity.kt:99-103 | teardown detaches the listener and notifies nobody; with keep-alive the link is untouched; otherwise it is released |
| DeviceControl.DeviceControlScreen.constructor | app/src/main/java/com/code/EstesioTech/DeviceControlActivity.kt:32-33 | no messages and keep-alive off |
| DeviceControl.DeviceControlScreen.OnCreate | app/src/main/java/com/code/EstesioTech/DeviceControlActivity.kt:36-46 | the link changes as the startup says; the lines of listener calls made during the connect, then "Conectando a …" |
| DeviceControl.DeviceControlScreen.OnEvent | app/src/main/java/com/code/EstesioTech/DeviceControlActivity.kt:83-97 | each listener call appends its one line |
| DeviceControl.DeviceControlScreen.HomeAction | app/src/main/java/com/code/EstesioTech/DeviceControlActivity.kt:64-69 | the Home action sets keep-alive |
| DeviceControl.DeviceControlScreen.OnDestroy | app/src/main/java/com/code/EstesioTech/DeviceControlActivity.kt:99-103 | detaches, then disconnects iff keep-alive is off |
| Home.FilterKeepsField | app/src/main/java/com/code/EstesioTech/ui/screens/HomeActivity.kt:263-264 | the field keeps only digits and never exceeds 11: an edit with more digits is refused, not truncated |
| Home.DigitsOnlyAppend | app/src/main/java/com/code/EstesioTech/ui/screens/HomeActivity.kt:263 | the filter keeps the digits in order |
| Home.TypeOneCharacter | app/src/main/java/com/code/EstesioTech/ui/screens/HomeActivity.kt:263-264 | typing a non-digit changes nothing; a digit is appended until the field holds 11 |
| Home.CpfField.constructor | app/src/main/java/com/code/EstesioTech/ui/screens/HomeActivity.kt:369 | the dialog's field starts from the searched CPF |
| Home.CpfField.OnValueChange | app/src/main/java/com/code/EstesioTech/ui/screens/HomeActivity.kt:262-265 | the field changes as the filter says; the new-patient dialog applies the same filter (HomeActivity.kt lines 390-393) |
| Home.CpfMask | app/src/main/java/com/code/EstesioTech/ui/screens/HomeActivity.kt:354 | an 11-character CPF is shown as XXX.XXX.XXX-XX; any other length unchanged |
| Home.MaskRoundTrip | app/src/main/java/com/code/EstesioTech/ui/screens/HomeActivity.kt:354 | removing the punctuation of a masked CPF gives it back |
| Home.MaskInjective | app/src/main/java/com/code/EstesioTech/ui/screens/HomeActivity.kt:354 | two field values are never shown alike |
| Home.ConfirmedCpfIsComplete | app/src/main/java/com/code/EstesioTech/ui/screens/HomeActivity.kt:409 | a new patient is confirmed only with a name and exactly 11 digits; the search runs iff the CPF is non-empty (line 277) |

## Left out

- Firestore and Firebase Auth: queries, the batch commit and its callbacks, `login`,
  `register`, `createPatient`, `deleteSession`, `checkPatient` and `getFullSessionData` are
  network clients. The signed-in user is an `Option` parameter. Documents are rows whose
  missing fields are `None`. A save returns the batch it would commit.
- Dates are integers. "Now" (`Date()`) is a parameter, a missing date in the sort keys is 0
  (`Date(0)`), and `SimpleDateFormat` session ids are plain strings.
- Threading: `runOnUiThread` hand-offs are applied at once. In the measurement screen the
  commit and the live value update therefore take effect in the same step as the line that
  caused them. In the terminal screen, callbacks from the GATT thread arrive as separate
  `OnEvent` calls.
- Ble: the 500 ms delay before service discovery, the notification descriptor write and the
  exceptions caught around `close()` are platform timing and I/O. The UTF-8 decoding of
  characteristic values is left out too: received text is a parameter. `initialize` (is
  Bluetooth available) is the boolean `initialized`.
- Ble.BleManager.ConnectToDevice: the object uses the corrected connect, not the code as
  written; see Findings. With a session pending (a connect issued, no STATE_CONNECTED yet),
  the code keeps that session and tells nobody, while the corrected connect closes it and
  sends `onDisconnected` first.
- DeviceControl.Startup: built on the corrected connect, so with a session pending it
  releases it, unlike the code (see the line above).
- DeviceControl.DeviceControlScreen.OnCreate: follows `DeviceControl.Startup`; with a session
  pending (for example, the terminal reopened with keep-alive while still "Conectando…") its
  transcript holds a "❌ DESCONECTADO" line the code does not show.
- Text: `isDigit`, `uppercase` and `toIntOrNull` are modelled on ASCII letters and the
  digits '0'..'9'. Kotlin's versions are Unicode-aware; on the JVM, `toIntOrNull` accepts any
  Unicode decimal digit. `equals(ignoreCase = true)` is modelled for ASCII letters plus the
  non-ASCII letters that fold to an ASCII one (U+0130, U+0131, U+212A, U+017F), so it is
  exact for the word "Enviado". `isWhitespace` is modelled in full.
- Text: strings are sequences of Unicode scalar values, while Kotlin's are UTF-16 code units.
  `length` and `compareTo` differ only on characters outside the Basic Multilingual Plane,
  which the core never compares.
- PDF generation (canvas drawing, files, intents). Only the tables the reports draw from
  are modelled.
- `ClinicalScale.getResult` is not part of this model; the level table used is the inline
  one.
- String resources (card titles, redo dialog texts, toasts, snackbars) and theme, settings
  and locale files are presentation only.
- The order of `allResults.forEach` is the map's iteration order, which a Dafny map does not
  have. The batch is specified as a sequence with one write per limb in some order.
- `patientsMap` is a `LinkedHashMap`. Its insertion order is modelled as a sequence with
  first-index lookup, so `patientsMap.values` keeps first-appearance order.
- BLE scanning (`MainActivity`), the HomeActivity polling loops, and the Login, Register and
  Settings screens are outside the core.

## Findings

| source | as written | input that shows it | evidently intended | confidence | as-written member | corrected member |
|---|---|---|---|---|---|---|
| app/src/main/java/com/code/EstesioTech/BleManager.kt:60-75 | the previous GATT session is closed only when `isDeviceConnected` is true, so a connect issued while a session is still pending overwrites `bluetoothGatt` without closing it | `connectToDevice(A)` then, before STATE_CONNECTED, `connectToDevice(B)`: session 0 stays open with no reference left to close it | release any existing `bluetoothGatt` before opening a new one | not executed | Ble.ConnectLeaksPendingSession | Ble.TidyPreserved |
