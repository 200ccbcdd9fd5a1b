# Heimdall core, modelled in Dafny

Heimdall is a face-recognition surveillance application. A Flask backend stores users,
cameras, inmates, alerts and video recordings. It scores how close a captured face is to the
faces of registered inmates and tells nearby facilities where a match was seen. A React
frontend shows live camera feeds, recordings, inmate profiles and user management, and
raises a siren when an escaped inmate is recognised.

This project models the deterministic decisions of that system and proves properties of
them. The neural networks, OpenCV, trigonometry, HTTP, sockets and the database are
replaced by abstract function parameters, inputs and in-memory sequences.

- **Match scoring** (`EmbeddingClient`, `FirstMinimum`, `LegacyApp`).
  - The adaptive face/periocular fusion weight.
  - The nested minimum search that tags the method it used ('fusion', 'face_only', 'periocular_only', 'none').
  - The legacy nearest-neighbour recogniser with its strict 0.5 threshold.
  - Every minimum search is written as a loop, proved against a first-minimum specification.
- **Geolocation and descriptors** (`Geolocation`, `HogFeatures`).
  - The facility radius search, with its stable ascending sort (`Sorting`).
  - The priority choice of a detection's coordinates.
  - The 3060-entry HOG length normalisation.
- **Image decisions** (`ImagePreprocessing`, `EmbeddingService`).
  - Augmentation layout.
  - Denoise and sharpen rules.
  - Exposure parameters and the rotation gate.
  - Data-URL stripping and the odd median kernel.
  - The result shapes of the batch encoders.
  - Box clamping, crop padding and face filtering in multi-face detection.
- **Backend routes** (`AdminApi`, `AuthApi`, `AuthRoutes`, `RecordingRoutes`, `UploadRecognition`, `UserDashboard`).
  - The tables are classes holding sequences of rows.
  - Each handler is a method whose contract is a pure decision function plus the exact new table.
  - The tables' unique constraints are class invariants.
- **Frontend pages** (`AlarmContext`, `InmateProfiles`, `ManageCameras`, `ManageUsers`, `Surveillance`, `LiveMonitoring`).
  - The React state of each page or context is a class.
  - Each handler is a method applying that handler's state updates.
  - The derived lists (filters, groups, statistics, pagination, labels) are functions with lemmas about them.

Python and JavaScript truthiness is written out wherever the code relies on it: a 0.0
coordinate, an empty string, a zero duration, `alert_id || alertId`.

## Model

| member | source | states |
|---|---|---|
| Common.AllowedExtension | backend/app/routes/api/recording_routes.py:22-23 | shared by both upload routes: true exactly when the name has a dot and the lower-cased text after the last dot is in the allowed set |
| AdminApi.Guard | backend/app/routes/admin_api.py:84-97 | an anonymous caller gets 401 and only an anonymous one; a logged-in non-admin gets 403 and only a non-admin; exactly an admin passes through |
| AdminApi.NextUserId | backend/app/routes/admin_api.py:162-171 | the key an insert receives is larger than every existing id |
| AdminApi.View | backend/app/routes/admin_api.py:118-129 | the listing copies id, email, is_admin and last_login; `is_active` holds exactly when the row is not suspended; `name` is the username, or the email when the username is empty |
| AdminApi.ListUsers | backend/app/routes/admin_api.py:113-133 | one entry per row, in table order, each the row's view |
| AdminApi.ApplyUpdate | backend/app/routes/admin_api.py:202-220 | each key present in the body overwrites its column and an absent one keeps the old value; the password is re-hashed only when it is non-empty; id, suspension, last login, facility and coordinates never change |
| AdminApi.UpdateKeepsUnique | backend/app/routes/admin_api.py:203-212 | an update that passed the email check, and whose new username no other row holds, keeps ids, usernames and emails distinct |
| AdminApi.RemoveKeepsUnique | backend/app/routes/admin_api.py:284-285 | deleting a row keeps the other rows' unique constraints |
| AdminApi.RemoveLeavesOthers | backend/app/routes/admin_api.py:284-285 | after the delete the table holds exactly the rows with another id |
| AdminApi.ToggleFlipsListing | backend/app/routes/admin_api.py:125 | flipping a row's suspension flips exactly that row's `is_active` in the listing and changes no other entry |
| AdminApi.AdminUserStore.GetUsers | backend/app/routes/admin_api.py:110-133 | a refused caller gets the guard's answer and no listing; an admin gets the whole listing |
| AdminApi.AdminUserStore.CreateUser | backend/app/routes/admin_api.py:141-187 | guard first; 400 when name, email or password is missing or empty; 400 exactly when the email is already held; an integrity error exactly when the username is taken; otherwise one row is appended with the next id, the hashed password and not suspended; a refusal leaves the table as it was |
| AdminApi.AdminUserStore.UpdateUser | backend/app/routes/admin_api.py:195-235 | guard first; 404 exactly for an unknown id; an integrity error exactly when the new username belongs to another row; 400 exactly when the new email belongs to another row; otherwise only that row changes, to ApplyUpdate of it; the unique constraints are kept |
| AdminApi.AdminUserStore.ToggleUserStatus | backend/app/routes/admin_api.py:242-264 | guard first; 404 exactly for an unknown id; 400 exactly for the caller's own row; otherwise only that row's suspension flips, and the answer's `is_active` is the new state |
| AdminApi.AdminUserStore.DeleteUser | backend/app/routes/admin_api.py:271-287 | guard first; 404 exactly for an unknown id; 400 exactly for the caller's own row; otherwise exactly that row is removed and every other row stays |
| AdminApi.AdminUserStore.constructor | backend/app/models/user.py:9-12 | the store is built on a users table whose ids, usernames and non-null emails are unique |
| AlarmContext.AlarmKeyOf | frontend/src/contexts/AlarmContext.jsx:136 | the key is `alert_id` when that is truthy, else `alertId` when that is truthy, else the current time |
| AlarmContext.ZeroIdFallsThrough | frontend/src/contexts/AlarmContext.jsx:136 | an `alert_id` of 0 or "" does not name the alarm: the next spelling, or the time, does |
| AlarmContext.FirstAlert | frontend/src/contexts/AlarmContext.jsx:114 | a found alert is in the list and has that id; none found means no alert has it |
| AlarmContext.ResolvedIds | frontend/src/contexts/AlarmContext.jsx:112-118 | an active key is collected exactly when its first backend alert is resolved by status or by flag; a key the backend does not list is never collected |
| AlarmContext.CollectResolved | frontend/src/contexts/AlarmContext.jsx:112-118 | the forEach collects exactly ResolvedIds of the active keys |
| AlarmContext.AlarmRegistry.constructor | frontend/src/contexts/AlarmContext.jsx:22-27 | no alarm, no modal, siren off, no silent period, no poll |
| AlarmContext.AlarmRegistry.HasActiveAlarms | frontend/src/contexts/AlarmContext.jsx:229 | true exactly when some alarm is active |
| AlarmContext.AlarmRegistry.StartSoundCycle | frontend/src/contexts/AlarmContext.jsx:63-85 | the siren plays and no silent period is pending; alarms, modal and poll are unchanged |
| AlarmContext.AlarmRegistry.StopSoundCycle | frontend/src/contexts/AlarmContext.jsx:88-95 | the siren stops and no silent period is pending; nothing else changes |
| AlarmContext.AlarmRegistry.TriggerAlarm | frontend/src/contexts/AlarmContext.jsx:135-158 | the alarm is stored under its key, replacing an alarm with the same key, and shown in the modal; the siren starts only when it is neither playing nor in its silence |
| AlarmContext.AlarmRegistry.DismissVisual | frontend/src/contexts/AlarmContext.jsx:161-163 | the modal is hidden; alarms and siren go on |
| AlarmContext.AlarmRegistry.ResolveAlarm | frontend/src/contexts/AlarmContext.jsx:166-177 | exactly that key is forgotten; the modal is hidden exactly when it shows that alarm |
| AlarmContext.AlarmRegistry.StopAllAlarms | frontend/src/contexts/AlarmContext.jsx:180-184 | no alarm, no modal, siren off, no silent period |
| AlarmContext.AlarmRegistry.CheckResolvedAlarms | frontend/src/contexts/AlarmContext.jsx:98-132 | with no alarms, or when the request fails, nothing changes; otherwise an alarm stays exactly when the backend does not report it resolved |
| AlarmContext.AlarmRegistry.SyncEffect | frontend/src/contexts/AlarmContext.jsx:187-206 | while alarms are active the poll is scheduled and an idle siren starts; with none the siren, its silence and the poll all stop |
| AlarmContext.AlarmRegistry.SoundOnElapsed | frontend/src/contexts/AlarmContext.jsx:73-75 | after ten minutes of siren a silent period begins |
| AlarmContext.AlarmRegistry.SilenceElapsed | frontend/src/contexts/AlarmContext.jsx:78-83 | after the silence the siren restarts exactly when alarms remain |
| AlarmContext.UnresolvedStays | frontend/src/contexts/AlarmContext.jsx:113-125 | an alarm the backend does not report resolved, or does not list, survives the poll |
| AuthApi.FindByUsername | backend/app/routes/auth_api.py:19 | a found row has that username; none found means no row has it |
| AuthApi.FindByEmail | backend/app/routes/api/auth_routes.py:32 | a found row holds that email; none found means no row holds it (also the email check of the admin create and update endpoints) |
| AuthApi.FindById | backend/app/routes/auth_api.py:45-47 | a found row has that primary key; none found means no row has it (also the 404 of the admin endpoints' `get_or_404`) |
| AuthApi.CheckFound | backend/app/routes/auth_api.py:20-24 | for a found row, 401 exactly when the password does not check, 403 exactly when it checks and the row is suspended, admitted exactly when it checks and the row is not suspended |
| AuthApi.ApiLoginDecision | backend/app/routes/auth_api.py:9-28 | 400 exactly when the stripped username or the password is empty; 401 exactly when no row has the username or the password does not check; an admitted row has that username, a checking password and no suspension; 403 only for a suspended row with that name |
| AuthApi.UnknownUserLooksLikeWrongPassword | backend/app/routes/auth_api.py:20-21 | an unknown username and a wrong password for a known one get the same 401, so the answer does not reveal which names exist |
| AuthApi.FindByIdUnique | backend/app/routes/auth_api.py:45-47 | with distinct keys, the lookup by a row's id finds that row |
| AuthApi.SessionStore.SignIn | backend/app/routes/auth_api.py:26-28 | the session holds the row's id and only that row's last login changes |
| AuthApi.SessionStore.ApiLogin | backend/app/routes/auth_api.py:9-33 | a refusal changes neither table nor session and answers with the decision's error; an admission logs that row in, stamps its last login, answers with its public view, and /me then returns that same view |
| AuthApi.SessionStore.ApiLogout | backend/app/routes/auth_api.py:36-40 | afterwards nobody is logged in; the table is unchanged |
| AuthApi.SessionStore.ApiMe | backend/app/routes/auth_api.py:43-47 | an answer exactly when a logged-in id names a row, and then it is that row's public view (otherwise 401) |
| AuthRoutes.LegacyLookup | backend/app/routes/api/auth_routes.py:30-34 | by the email when one is given and it finds a row; otherwise by the username when one is given; with neither, nobody |
| AuthRoutes.LegacyDecide | backend/app/routes/api/auth_routes.py:26-43 | 400 exactly when the password is empty; then 401 'User not found' exactly when the lookup finds nobody; otherwise the password, then the suspension decide; an admitted row's password checks and it is not suspended |
| AuthRoutes.LegacyLoginDecision | backend/app/routes/api/auth_routes.py:19-43 | on the request's fields (email and username stripped, an absent key read as empty), an admitted row exists and is not suspended |
| AuthRoutes.BlankIdentifiersNotFound | backend/app/routes/api/auth_routes.py:30-37 | with a password but only blank identifiers, the legacy route answers 401 'User not found' where the main route answers 400 |
| AuthRoutes.AgreesWithApiByUsername | backend/app/routes/api/auth_routes.py:33-43 | by username alone, both routes admit the same row; they differ only in that the legacy route says 'User not found' where the main one says 'Invalid credentials' |
| AuthRoutes.LegacyLogin | backend/app/routes/api/auth_routes.py:16-53 | a refusal changes neither table nor session; an admission logs the decided row in, stamps its last login and answers with its public view |
| AuthRoutes.LegacyMe | backend/app/routes/api/auth_routes.py:56-61 | an answer exactly when a logged-in id names a row, and then that row's public view |
| AuthApi.SessionStore.constructor | backend/app/models/user.py:9-11 | the session store starts signed out, on a users table with unique ids and usernames |
| AuthApi.Public | backend/app/models/user.py:30-41 | the public view copies the id, username, email and both flags; it has no password hash field |
| EmbeddingClient.FaceWeight | backend/app/utils/embedding_client.py:187-193 | without glasses the face weight is 0.7; with glasses it is never below 0.2, never above 0.5 for a non-negative confidence, 0.5 - 0.3·confidence for a confidence up to 1, and 0.2 from confidence 1 on |
| EmbeddingClient.ComputeFusionScore | backend/app/utils/embedding_client.py:164-200 | the face weight lies in [0.2, 0.7]; the fused distance lies between the face and periocular distances and equals them when they agree |
| EmbeddingClient.ConvexBetween | backend/app/utils/embedding_client.py:195-198 | a weighted average with a weight in [0, 1] lies between its two values and is that value when they agree |
| EmbeddingClient.FusionMonotone | backend/app/utils/embedding_client.py:195-198 | the fused distance never decreases when either input distance grows |
| EmbeddingClient.PairRow | backend/app/utils/embedding_client.py:238-251 | one face encoding contributes one score per periocular encoding, or a single face-only score when the inmate has none |
| EmbeddingClient.BestOfSnoc | backend/app/utils/embedding_client.py:244-246 | a further score replaces the best exactly when it is strictly smaller |
| EmbeddingClient.ScanFusionRow | backend/app/utils/embedding_client.py:239-246 | the inner loop leaves the best of everything examined so far, that row included |
| EmbeddingClient.ScanPairs | backend/app/utils/embedding_client.py:233-251 | Case 1 ends with the best of all its scores, in loop order |
| EmbeddingClient.ScanFaces | backend/app/utils/embedding_client.py:254-259 | Case 2 ends with the best face-only distance |
| EmbeddingClient.ScanPeriocular | backend/app/utils/embedding_client.py:262-267 | Case 3 ends with the best periocular-only distance |
| EmbeddingClient.BestMatchWithFusion | backend/app/utils/embedding_client.py:203-269 | the result is the best of exactly the scores its case examines, and (+inf, 'none') when it examines none |
| EmbeddingClient.BestOfIsFirstMinimum | backend/app/utils/embedding_client.py:229-230 | with no scores the result is (+inf, 'none'); otherwise it is the first minimum of the distances, and no examined distance is smaller |
| EmbeddingClient.PairScoresLength | backend/app/utils/embedding_client.py:234-251 | Case 1 examines one score per face encoding and periocular encoding pair |
| EmbeddingClient.PairScoresPrefix | backend/app/utils/embedding_client.py:234-251 | the scores for face encoding i follow those of the encodings before it |
| EmbeddingClient.PairScoresAt | backend/app/utils/embedding_client.py:239-243 | the pair (i, j) is examined, as the fused score of its face and periocular distances |
| EmbeddingClient.PairScoresFaceOnly | backend/app/utils/embedding_client.py:247-251 | without periocular encodings Case 1 examines exactly the face-only distances |
| EmbeddingClient.PairScoresMethods | backend/app/utils/embedding_client.py:246-251 | every Case 1 score is tagged 'fusion' when the inmate has periocular encodings and 'face_only' otherwise |
| EmbeddingClient.MatchMethodConditions | backend/app/utils/embedding_client.py:232-267 | 'fusion' only with both query embeddings and both encoding lists; 'periocular_only' only without a face embedding; 'face_only' only with a face embedding and no usable periocular pair; 'none' exactly when nothing was examined, exactly when the distance is +inf |
| EmbeddingClient.FusionIffBothEncodings | backend/app/utils/embedding_client.py:233-251 | with both query embeddings the method is 'fusion' exactly when the inmate has face and periocular encodings; without periocular encodings the answer is what face matching alone gives |
| EmbeddingClient.NoInmateFacesNoMatch | backend/app/utils/embedding_client.py:233-259 | with a face embedding but no inmate face encodings the answer is (+inf, 'none'), even when periocular encodings exist |
| EmbeddingClient.FusionBestBelowEveryPair | backend/app/utils/embedding_client.py:233-246 | with both embeddings and encodings, the fused best is no larger than the fused score of any pair |
| FirstMinimum.ArgMin | backend/app/utils/embedding_client.py:255-259 | the scan ends on no index exactly for an empty list, and otherwise on a valid index |
| FirstMinimum.ArgMinIsFirstMinimum | backend/app/utils/embedding_client.py:257 | because the comparison is strict, the scan ends on the smallest value and on the first of several equal minima |
| FirstMinimum.ArgMinSnoc | backend/app/utils/embedding_client.py:257-259 | one more value takes over exactly when it is strictly below the current best |
| EmbeddingService.FirstComma | backend/app/utils/embedding_service.py:202 | a found position holds the first comma; none found means the text has no comma |
| EmbeddingService.StripDataUrl | backend/app/utils/embedding_service.py:202-203 | the result is a suffix of the input: all of it when there is no comma, and otherwise what follows the first comma |
| EmbeddingService.StripDataUrlHeader | backend/app/utils/embedding_service.py:253-254 | a `data:` header, which holds no comma, is removed exactly and the payload is kept whole, commas included |
| EmbeddingService.OddKernel | backend/app/utils/embedding_service.py:87-89 | the median kernel is always odd: an odd size is kept and an even one is raised by one |
| EmbeddingService.ServiceExposureParams | backend/app/utils/embedding_service.py:64-74 | dark images get (1.5, 30) and bright ones (0.7, -20); the gain always lies in [0.7, 1.5]; the normal band gets no offset |
| EmbeddingService.ServiceExposureReachesTarget | backend/app/utils/embedding_service.py:72-73 | in the normal band, whenever the gain is not clipped, it brings the mean brightness to 127 exactly |
| EmbeddingService.EncodeMultiple | backend/app/utils/embedding_service.py:237-276 | an empty list is refused with 400 and only an empty list; otherwise one result per image, in order, each the embedding of the image with its data-URL header removed (None where it failed) |
| EmbeddingService.EncodeFull | backend/app/utils/embedding_service.py:434-487 | 500 exactly when neither the face nor a successful periocular crop gives an embedding; the periocular embedding is present exactly when the extractor succeeded with a combined crop; without glasses information the glasses fields keep False, 0.0 and 'none'; otherwise the periocular embedding is the embedding of the combined crop, and the glasses fields are the extractor's detected flag, confidence and type |
| EmbeddingService.ClampedBox | backend/app/utils/embedding_service.py:621-630 | each coordinate is truncated toward zero and clamped to the image; the box's corners are those clamped values |
| EmbeddingService.CropOf | backend/app/utils/embedding_service.py:648-654 | the padded crop never leaves the image and, for a box inside it, contains the box's top-left corner |
| EmbeddingService.FaceOf | backend/app/utils/embedding_service.py:616-706 | a detection is reported exactly when its probability is present and at least 0.5, its padded crop is not empty by the corrected test of the Findings below (a crop whose right or bottom edge is at or before 0 is empty, where numpy would read it from the far edge) and the crop yields a face embedding; a reported face carries its detection's index, probability, clamped box and embedding; its periocular embedding is present exactly when the extractor succeeded with a combined crop, and is then that crop's embedding; its glasses flag and confidence are the extractor's, or False and 0.0 without glasses information |
| EmbeddingService.Faces | backend/app/utils/embedding_service.py:613-706 | no more faces are reported than were detected |
| EmbeddingService.FacesInOrder | backend/app/utils/embedding_service.py:616-633 | reported faces carry detection indices in strictly increasing order |
| EmbeddingService.FacesSound | backend/app/utils/embedding_service.py:616-706 | every reported face is exactly the face its own detection gives |
| EmbeddingService.FacesComplete | backend/app/utils/embedding_service.py:704-706 | every detection that passes every filter is reported |
| EmbeddingService.DetectAllFaces | backend/app/utils/embedding_service.py:594-713 | no boxes, or an empty list, gives the 'No faces detected' answer and only then; otherwise the answer lists exactly the faces FaceOf keeps (with its corrected emptiness test) and `total_faces` is their number |
| EmbeddingService.NegativeStopCropNotEmpty | backend/app/utils/embedding_service.py:624-656 | for a detection lying left of the image the clamped box has negative width, yet numpy's slice with a negative stop is not empty, so the `size == 0` test lets the crop through |
| EmbeddingService.NegativeStopReadFromEnd | backend/app/utils/embedding_service.py:648-657 | every padded crop whose right edge stops left of the image while its rows are non-empty is empty by the corrected test yet keeps `w + x2 - x1` numpy columns |
| EmbeddingService.OutsideCropSkipped | backend/app/utils/embedding_service.py:648-657 | with the corrected test, a detection whose padded crop ends at or before the image's left or top edge is skipped |
| EmbeddingService.CropEmptyAgreesInside | backend/app/utils/embedding_service.py:654-657 | for a crop within the image, the corrected emptiness test and numpy's size test agree |
| Geolocation.Entry | backend/app/utils/geolocation.py:60-63 | an entry names the user it was computed for |
| Geolocation.Candidates | backend/app/utils/geolocation.py:51-63 | the loop appends at most one entry per user, and each one is located and within the radius |
| Geolocation.FindNearbyFacilities | backend/app/utils/geolocation.py:36-68 | the result is the loop's entries stably sorted by rounded distance |
| Geolocation.NearbyWithinRadius | backend/app/utils/geolocation.py:58-63 | every returned user has both coordinates, its unrounded distance is at most the radius, and its entry carries that distance rounded |
| Geolocation.CandidatesEntries | backend/app/utils/geolocation.py:57-63 | every appended entry is the entry of a located user |
| Geolocation.CandidatesCount | backend/app/utils/geolocation.py:57-63 | a located user's entry is appended once per occurrence of the user when in range, and never otherwise |
| Geolocation.NearbyCount | backend/app/utils/geolocation.py:51-68 | after the sort, a user appears exactly when located and within the radius, as often as in the query; no out-of-range user appears |
| Geolocation.NearbyOrdered | backend/app/utils/geolocation.py:66 | closest first by rounded distance, and entries with the same rounded distance keep query order |
| Geolocation.CameraById | backend/app/utils/geolocation.py:90 | a found camera is in the table with that key; none found means no camera has it |
| Geolocation.GetDetectionLocation | backend/app/utils/geolocation.py:71-97 | both coordinates or neither; the camera's when it exists and both of its coordinates are truthy; else the defaults when both are given; else (None, None) |
| Geolocation.ZeroCoordinateFallsBack | backend/app/utils/geolocation.py:91 | a camera at latitude 0.0 counts as unlocated, so the defaults are returned |
| Geolocation.CameraByIdFirst | backend/app/utils/geolocation.py:90 | with distinct keys the lookup finds the camera carrying the key |
| HogFeatures.TileLength | backend/app/utils/hog_features.py:28 | tiling reps times gives reps copies' worth of entries |
| HogFeatures.TilePrefix | backend/app/utils/hog_features.py:28 | tiling once fewer gives a prefix of the tiling |
| HogFeatures.TilePeriodic | backend/app/utils/hog_features.py:28 | a tiled array repeats with the period of its input |
| HogFeatures.TileShape | backend/app/utils/hog_features.py:28 | a tiled array starts with its input and then repeats it |
| HogFeatures.CeilDivCovers | backend/app/utils/hog_features.py:27 | ceil(3060 / size) copies cover at least 3060 entries |
| HogFeatures.NormalizeLength | backend/app/utils/hog_features.py:24-31 | a 3060-long descriptor is kept; a longer one is cut to its first 3060 entries; a shorter non-empty one becomes exactly 3060 entries that start with it and repeat it; an empty one stays empty |
| ImagePreprocessing.Group | backend/app/utils/image_preprocessing.py:450-507 | a disabled option contributes nothing; an enabled one contributes its whole group |
| ImagePreprocessing.Layout | backend/app/utils/image_preprocessing.py:443-509 | the original always comes first; each enabled option adds its fixed number of images (4, 4, 1, 4, 2), so there are never more than 16; with rotations the four rotations follow the original |
| ImagePreprocessing.GenerateAugmentations | backend/app/utils/image_preprocessing.py:443-509 | the appends build exactly that layout, group by group in fixed order; each image is paired with its Name ('original', 'rotate_<angle>', 'darker', and so on) |
| ImagePreprocessing.DenoiseStep | backend/app/utils/image_preprocessing.py:388-393 | aggressive denoising exactly above noise level 40; otherwise non-local means with a strength of at most 15, never negative for a non-negative level, and truncated half the level up to level 30 |
| ImagePreprocessing.SharpenStep | backend/app/utils/image_preprocessing.py:400-405 | strong deblurring exactly below blur score 25, light deblurring otherwise |
| ImagePreprocessing.SelectivePreprocess | backend/app/utils/image_preprocessing.py:366-408 | denoising exactly when the noise exceeds its threshold; sharpening exactly when the blur score is below its threshold and the noise is not above 30; the operations are applied denoise first, and aggressive denoising is never followed by sharpening; the reported levels are the rounded estimates |
| ImagePreprocessing.DefaultDenoiseStrength | backend/app/utils/image_preprocessing.py:385-393 | with the default threshold 15, a moderate denoise has strength between 7 and 15 |
| ImagePreprocessing.ExposureParams | backend/app/utils/image_preprocessing.py:98-110 | very dark images get (2.0, 50) and very bright ones (0.7, -30); the gain always lies in [0.5, 2.0]; the normal band gets no offset |
| ImagePreprocessing.ExposureReachesTarget | backend/app/utils/image_preprocessing.py:108-109 | in the normal band, a target the clipped gain can reach is reached exactly |
| ImagePreprocessing.RotationApplied | backend/app/utils/image_preprocessing.py:219-247 | the image is rotated exactly when at least two eyes are found and the angle lies strictly between 2 and 45 degrees in magnitude, and then by that angle |
| InmateProfiles.FilteredInmates | frontend/src/pages/InmateProfiles.jsx:280-285 | an inmate is kept exactly when its name or id contains the query, ignoring case, and its status matches the filter (or the filter is 'all'); nothing else is added |
| InmateProfiles.FilteredInmatesAppend | frontend/src/pages/InmateProfiles.jsx:280-285 | filtering distributes over concatenation, so the kept inmates stay in list order |
| InmateProfiles.EmptySearchKeepsIdentified | frontend/src/pages/InmateProfiles.jsx:281-283 | with an empty query and 'all', exactly the inmates having a name or an id are shown: a missing field never matches, even the empty query |
| InmateProfiles.LocalPart | frontend/src/pages/InmateProfiles.jsx:295 | the part before the first '@': a prefix of the email holding no '@', followed by '@' when shorter |
| InmateProfiles.DisplayName | frontend/src/pages/InmateProfiles.jsx:294-296 | the registrant's name when truthy, else the email's non-empty local part, else 'Unassigned'; never empty |
| InmateProfiles.Members | frontend/src/pages/InmateProfiles.jsx:306 | a group's inmates are exactly the filtered inmates with that key |
| InmateProfiles.FirstOf | frontend/src/pages/InmateProfiles.jsx:299-305 | the inmate that opens a group is one with that key, and there is none exactly when no inmate has the key |
| InmateProfiles.FirstOfSnoc | frontend/src/pages/InmateProfiles.jsx:299-305 | a later inmate opens a group only when no earlier inmate had its key |
| InmateProfiles.GroupsCharacterised | frontend/src/pages/InmateProfiles.jsx:291-307 | a group exists exactly for each key some filtered inmate has; it holds exactly that key's inmates in list order, and takes its email and display name from the first of them |
| InmateProfiles.GroupsOtherKey | frontend/src/pages/InmateProfiles.jsx:292-307 | one more inmate leaves every group of another key as it was |
| InmateProfiles.GroupsJoinKey | frontend/src/pages/InmateProfiles.jsx:306 | one more inmate of an existing key is appended to that group |
| InmateProfiles.GroupsNewKey | frontend/src/pages/InmateProfiles.jsx:299-306 | one more inmate of a new key opens a group named after it, holding only it |
| InmateProfiles.MembersNone | frontend/src/pages/InmateProfiles.jsx:306 | a key no inmate has has no members |
| InmateProfiles.InsertKey | frontend/src/pages/InmateProfiles.jsx:309 | inserting a key adds exactly that key |
| InmateProfiles.InsertKeySorted | frontend/src/pages/InmateProfiles.jsx:309 | inserting a new key into strictly sorted keys keeps them strictly sorted |
| InmateProfiles.SortKeys | frontend/src/pages/InmateProfiles.jsx:309 | sorting is a permutation of the keys |
| InmateProfiles.SortKeysSorted | frontend/src/pages/InmateProfiles.jsx:309 | distinct keys come out strictly ascending |
| InmateProfiles.EntryKeys | frontend/src/pages/InmateProfiles.jsx:309 | one key per entry, in order |
| InmateProfiles.MakeEntries | frontend/src/pages/InmateProfiles.jsx:309 | the entries follow the given keys, each paired with its own group |
| InmateProfiles.BuildGroups | frontend/src/pages/InmateProfiles.jsx:291-307 | the forEach builds exactly the groups characterised above, and records each key once |
| InmateProfiles.GroupInmates | frontend/src/pages/InmateProfiles.jsx:288-310 | no grouping gives null, and only then; otherwise every group appears once, with its own inmates, keys strictly ascending |
| InmateProfiles.CountStatus | frontend/src/pages/InmateProfiles.jsx:314-316 | a status count never exceeds the number of inmates |
| InmateProfiles.StatsOf | frontend/src/pages/InmateProfiles.jsx:312-317 | the total is the number of inmates and the three status counts together do not exceed it |
| InmateProfiles.StatusCountsBounded | frontend/src/pages/InmateProfiles.jsx:314-316 | the three statuses are exclusive, so their counts add up to at most the total |
| InmateProfiles.ToggleExpanded | frontend/src/pages/InmateProfiles.jsx:189-194 | the toggled key shows the opposite of before (a key never toggled reads as collapsed); every other key keeps its value |
| InmateProfiles.ToggleTwice | frontend/src/pages/InmateProfiles.jsx:189-194 | toggling twice restores how every group was shown |
| InmateProfiles.WithoutDbId | frontend/src/pages/InmateProfiles.jsx:173 | exactly the inmates with another db id remain |
| InmateProfiles.WithoutAbsentDbId | frontend/src/pages/InmateProfiles.jsx:173 | removing a db id nobody has changes nothing |
| InmateProfiles.AddInmateError | frontend/src/pages/InmateProfiles.jsx:211-214 | the form is sent exactly when a name and a mugshot are given; otherwise the error says both are required |
| InmateProfiles.InmatePage.constructor | frontend/src/pages/InmateProfiles.jsx:20-45 | no inmates, no expanded group, nothing selected, no modal, no error |
| InmateProfiles.InmatePage.ToggleGroup | frontend/src/pages/InmateProfiles.jsx:189-194 | only the expanded-groups map changes, by ToggleExpanded |
| InmateProfiles.InmatePage.Delete | frontend/src/pages/InmateProfiles.jsx:156-159 | the inmate is selected and the confirmation opens; the list is unchanged |
| InmateProfiles.InmatePage.ConfirmDelete | frontend/src/pages/InmateProfiles.jsx:162-186 | nothing selected changes nothing; a successful delete removes exactly that db id and closes the modal; a failure keeps the list, the selection and the open modal and shows the server's error or 'Failed to delete inmate' |
| InmateProfiles.InmatePage.AddInmate | frontend/src/pages/InmateProfiles.jsx:210-217 | the request is sent exactly when the guard passes, and then the error is cleared; otherwise the guard's error is shown; the list, the expanded groups, the selection and the delete modal are untouched |
| LegacyApp.RowDistances | app.py:312-315 | one cosine distance per inmate row, in row order |
| LegacyApp.ClosestInmate | app.py:307-328 | no rows leave no match and an infinite distance; otherwise the scan ends on the first row of smallest distance, and the match and distance are that row's |
| LegacyApp.Predict | app.py:269-343 | no file part gives 400 'No file provided'; an empty filename gives 400 'No selected file'; a failed embedding gives 500; otherwise 'Match found' exactly when the first closest row's distance is below 0.5, naming that row, and 'No match found' exactly otherwise |
| LegacyApp.VideoFeedLabel | app.py:373-395 | the frame reads 'Match: <name>' for the first closest row exactly when its distance is below 0.5, and 'No Match' otherwise, in particular when there are no rows |
| LegacyApp.IsDefaultAdmin | app.py:111-113 | true exactly for a session whose username is 'Admin' and whose role is 'admin' |
| LegacyApp.UserTable.UpdateUserInDatabase | app.py:446-480 | with neither new value it reports False and writes nothing; it reports True exactly when a value is given, the username exists and a new username is not another row's; then exactly the matched row gets the new username and/or the new hash |
| LegacyApp.UpdatedRowsUnique | app.py:453-479 | an UPDATE that does not give a matched row another row's username keeps usernames, keys and user_ids unique; one that matches no row changes nothing |
| LegacyApp.RegisterOutcome | app.py:188-210 | a missing or empty field gives 400; an existing username 409; otherwise the INSERT fails (an uncaught 500) exactly when the table lacks a column it names, leaves a NOT NULL column empty or repeats a user_id, and succeeds with 201 naming the user_id otherwise |
| LegacyApp.RegisterFailsOnOrmTable | app.py:58-82 | on the table `db.create_all()` builds at import, register_user never registers anyone: it fails at the INSERT after its checks; the admin seed's INSERT fails too; init_db's table would have no status column |
| LegacyApp.CorrectedTableRegisters | app.py:58-82 | the reconciled table takes both INSERTs and has a status; a new username with an untaken user_id is registered |
| LegacyApp.UserTable.RegisterUser | app.py:188-210 | the answer is RegisterOutcome on the reconciled table; a refusal writes nothing; success appends one row with a fresh key, the username, the hashed password, the role, the given user_id and the default status 'active' |
| LegacyApp.UserTable.SuspendUser | app.py:549-557 | 404 exactly for an unknown id; otherwise that row's status becomes 'suspended' when it was 'active' and 'active' otherwise, and no other row changes |
| LegacyApp.IndexOfId | app.py:551 | a found position holds that key; none found means no row has it |
| LegacyApp.NextId | app.py:206-207 | a new key is larger than every key in the table |
| LegacyApp.UserTable.constructor | app.py:58-82 | the users table, declared as the reconciled table, starts empty with unique usernames, keys and user_ids |
| LiveMonitoring.OrElse | frontend/src/pages/LiveMonitoring.jsx:95-100 | `x \|\| fallback`: the value when truthy, the fallback otherwise |
| LiveMonitoring.Online | frontend/src/pages/LiveMonitoring.jsx:97 | a present `is_active` decides alone by JavaScript truthiness; otherwise a present `status` decides by its truthiness (false, "" and 0 are offline); a camera with neither is online; `??` skips only null and undefined |
| LiveMonitoring.InactiveStatusOffline | frontend/src/pages/LiveMonitoring.jsx:97 | a camera sent with `status: false` (the boolean column of backend/app/models/camera.py:8) and no `is_active` is offline; `is_active` true or 0 overrides the status |
| LiveMonitoring.ToFeed | frontend/src/pages/LiveMonitoring.jsx:93-101 | a feed keeps the camera's id and takes its name, location, type, URL and device when truthy, else 'Camera <id>', 'Unknown', 'webcam', '' and '' |
| LiveMonitoring.ToFeeds | frontend/src/pages/LiveMonitoring.jsx:92-102 | one feed per camera, in order |
| LiveMonitoring.UnnamedCameraDefaults | frontend/src/pages/LiveMonitoring.jsx:95-98 | a camera with no name or state is listed as 'Camera <id>', 'Unknown', online, 'webcam' |
| LiveMonitoring.FilteredFeeds | frontend/src/pages/LiveMonitoring.jsx:343-351 | a blank query (after trimming) keeps every feed; otherwise exactly the feeds whose name or location contains the lower-cased trimmed query are kept |
| LiveMonitoring.FeedsMatching | frontend/src/pages/LiveMonitoring.jsx:346-350 | exactly the feeds whose name or location contains the query, never more than the list |
| LiveMonitoring.FeedsMatchingAppend | frontend/src/pages/LiveMonitoring.jsx:346-350 | filtering distributes over concatenation, so the kept feeds stay in list order |
| LiveMonitoring.FindFeed | frontend/src/pages/LiveMonitoring.jsx:354 | a feed is found exactly when one has the selected id, and then it is one with that id |
| LiveMonitoring.SelectedFeed | frontend/src/pages/LiveMonitoring.jsx:353-354 | none exactly when nothing is shown; otherwise the shown feed with the selected id, else the first shown |
| LiveMonitoring.HiddenSelectionFallsBack | frontend/src/pages/LiveMonitoring.jsx:353-354 | a selection the search hides falls back to the first shown feed |
| LiveMonitoring.AutoSelectedId | frontend/src/pages/LiveMonitoring.jsx:356-359 | with no (or a zero) selection and something shown, the first shown feed is selected; otherwise the selection stays |
| LiveMonitoring.AutoSelectionShown | frontend/src/pages/LiveMonitoring.jsx:353-359 | after the effect, a non-empty list always shows a selected feed, the first one when nothing was selected |
| LiveMonitoring.ConstraintFor | frontend/src/pages/LiveMonitoring.jsx:184-189 | exactly one device is requested for a usb feed that names one, and then that device; any camera otherwise |
| LiveMonitoring.MediaErrorMessage | frontend/src/pages/LiveMonitoring.jsx:198-206 | a denied permission and a missing device get their own messages; any other error reads 'Failed to start camera: ' and its message |
| LiveMonitoring.AnswerEffect | frontend/src/pages/LiveMonitoring.jsx:250-285 | an alarm exactly for a successful 'escaped_inmate_detected' answer, carrying its inmate and the time; the shown result is set exactly for a successful answer with a known status, to the inmate for a match and to null for a no-match; any other success shows its error or 'Unknown response'; an HTTP error shows 'Error: ' with its error or status text; a network failure shows 'Network error: ' with its message |
| LiveMonitoring.ResultOnlyFromMatch | frontend/src/pages/LiveMonitoring.jsx:252-276 | the shown result changes only on a successful answer, and then only to the answer's inmate or to null |
| LiveMonitoring.LiveMonitoringPage.constructor | frontend/src/pages/LiveMonitoring.jsx:37-66 | the default feed alone, empty query, nothing selected, no stream, no recognition, no result, no alarm |
| LiveMonitoring.LiveMonitoringPage.Selected | frontend/src/pages/LiveMonitoring.jsx:353-354 | the page shows SelectedFeed of the filtered list |
| LiveMonitoring.LiveMonitoringPage.LoadFeeds | frontend/src/pages/LiveMonitoring.jsx:84-107 | a successful non-empty camera list replaces the feeds with its mapping; anything else keeps the fallback; nothing else changes |
| LiveMonitoring.LiveMonitoringPage.SetQuery | frontend/src/pages/LiveMonitoring.jsx:42 | only the query changes |
| LiveMonitoring.LiveMonitoringPage.SyncSelection | frontend/src/pages/LiveMonitoring.jsx:356-359 | only the selection changes, to AutoSelectedId of the filtered list |
| LiveMonitoring.LiveMonitoringPage.StopStream | frontend/src/pages/LiveMonitoring.jsx:155-166 | no stream, not streaming, no error, video not ready; nothing else changes |
| LiveMonitoring.LiveMonitoringPage.ClickFeed | frontend/src/pages/LiveMonitoring.jsx:548-551 | the clicked feed is selected and the stream is stopped |
| LiveMonitoring.LiveMonitoringPage.StartStream | frontend/src/pages/LiveMonitoring.jsx:169-208 | a missing or offline feed shows 'Camera is offline' and an rtsp feed the proxy message, with no camera requested; otherwise the feed's constraint is requested; streaming exactly when it is granted, and then without error; a failure shows MediaErrorMessage; the video is never ready yet |
| LiveMonitoring.LiveMonitoringPage.VideoLoaded | frontend/src/pages/LiveMonitoring.jsx:707-710 | the video becomes ready; nothing else changes |
| LiveMonitoring.LiveMonitoringPage.CaptureAndRecognize | frontend/src/pages/LiveMonitoring.jsx:211-287 | nothing happens without video, canvas, stream and a ready video; zero dimensions and a failed capture set their status and send nothing; a frame is sent exactly otherwise, and then the answer's AnswerEffect sets status, result and alarm |
| LiveMonitoring.LiveMonitoringPage.StartRecognition | frontend/src/pages/LiveMonitoring.jsx:290-310 | before the video is ready only the waiting status is set; otherwise recognition and its interval start with 'Starting recognition...' |
| LiveMonitoring.LiveMonitoringPage.StopRecognition | frontend/src/pages/LiveMonitoring.jsx:313-321 | recognition and its interval stop, and the result and status are cleared |
| LiveMonitoring.LiveMonitoringPage.SocketAlarm | frontend/src/pages/LiveMonitoring.jsx:128-131 | the socket event's data becomes the alarm; nothing else changes |
| LiveMonitoring.LiveMonitoringPage.DismissAlarm | frontend/src/pages/LiveMonitoring.jsx:384-388 | the alarm and result are cleared and the status says scanning continues; recognition goes on |
| LiveMonitoring.HooksBeforeEarlyReturns | frontend/src/pages/LiveMonitoring.jsx:35-359 | the page calls 31 hooks before its early returns, starting with useNavigate |
| LiveMonitoring.RenderHooksAsWritten | frontend/src/pages/LiveMonitoring.jsx:361-388 | a loading or failed render calls 31 hooks, a loaded render 32 |
| LiveMonitoring.AsWrittenBreaksHookOrder | frontend/src/pages/LiveMonitoring.jsx:361-388 | the loading render and the loaded render call different hooks, which React's rule forbids |
| LiveMonitoring.RenderHooksCorrected | frontend/src/pages/LiveMonitoring.jsx:384-388 | with the callback declared before the early returns every render calls 32 hooks, the last a useCallback |
| LiveMonitoring.CorrectedKeepsHookOrder | frontend/src/pages/LiveMonitoring.jsx:361-388 | with that change every render calls the same hooks in the same order |
| ManageCameras.Filtered | frontend/src/pages/ManageCameras.jsx:130-138 | a blank query (after trimming) shows every camera; otherwise exactly the cameras whose name or location contains the lower-cased trimmed query |
| ManageCameras.FilterMatching | frontend/src/pages/ManageCameras.jsx:133-137 | exactly the cameras whose name or location contains the query, never more than the list |
| ManageCameras.FilterMatchingAppend | frontend/src/pages/ManageCameras.jsx:133-137 | filtering distributes over concatenation, so the kept cameras stay in list order |
| ManageCameras.BlankQueryShowsAll | frontend/src/pages/ManageCameras.jsx:131-132 | a query of spaces only shows the whole list |
| ManageCameras.Payload | frontend/src/pages/ManageCameras.jsx:206-219 | name and location are trimmed; the stream URL is sent exactly for rtsp and the device exactly for usb; a coordinate is null exactly when its field is empty |
| ManageCameras.Merge | frontend/src/pages/ManageCameras.jsx:225 | the payload's fields override the camera's; id and active state are kept |
| ManageCameras.EditCameras | frontend/src/pages/ManageCameras.jsx:222-227 | the cameras with the edited id get the payload merged in; every other camera is unchanged and the order is kept |
| ManageCameras.NewCameraId | frontend/src/pages/ManageCameras.jsx:240 | the new id is at least 1 and larger than every id in the list |
| ManageCameras.NewCamera | frontend/src/pages/ManageCameras.jsx:240-241 | the new camera has that fresh id, which no camera has, and is active |
| ManageCameras.ToggleCameras | frontend/src/pages/ManageCameras.jsx:259-262 | exactly the cameras with that id flip their active state; the rest are unchanged |
| ManageCameras.ToggleTwice | frontend/src/pages/ManageCameras.jsx:259-262 | toggling the same camera twice restores the list |
| ManageCameras.WithoutCameraMembers | frontend/src/pages/ManageCameras.jsx:275 | what stays is exactly the cameras with another id |
| ManageCameras.WithoutCameraAppend | frontend/src/pages/ManageCameras.jsx:275 | removal keeps the order of what stays |
| ManageCameras.WithoutAbsentCamera | frontend/src/pages/ManageCameras.jsx:275 | removing an id no camera has changes nothing |
| ManageCameras.WithoutCameraCutsOne | frontend/src/pages/ManageCameras.jsx:275 | removing the one camera with an id cuts it out and keeps the others in order |
| ManageCameras.CamerasPage.constructor | frontend/src/pages/ManageCameras.jsx:45-48 | no cameras, nothing edited, modal closed |
| ManageCameras.CamerasPage.SaveCamera | frontend/src/pages/ManageCameras.jsx:205-257 | a blank name changes nothing; an edit applies EditCameras with the payload; a creation prepends NewCamera; either closes the modal; whatever the API answers |
| ManageCameras.CamerasPage.ToggleActive | frontend/src/pages/ManageCameras.jsx:259-272 | the list becomes ToggleCameras of it, whatever the API answers |
| ManageCameras.CamerasPage.RemoveCamera | frontend/src/pages/ManageCameras.jsx:274-284 | the list loses exactly the cameras with that id, whatever the API answers |
| ManageUsers.FilteredUsers | frontend/src/pages/ManageUsers.jsx:218-221 | never longer than the list; a user is kept exactly when the lower-cased name or email (when present) contains the lower-cased search term |
| ManageUsers.FilteredUsersAppend | frontend/src/pages/ManageUsers.jsx:218-221 | filtering distributes over concatenation, so the shown users stay in list order |
| ManageUsers.EmptySearchShowsNamed | frontend/src/pages/ManageUsers.jsx:218-221 | an empty search keeps every user that has a name or an email |
| ManageUsers.NamelessNeverShown | frontend/src/pages/ManageUsers.jsx:218-221 | a user with neither name nor email is never listed, whatever the search |
| ManageUsers.CountActive | frontend/src/pages/ManageUsers.jsx:225-226 | the count of users in a given active state is at most the list's length |
| ManageUsers.CountAdmins | frontend/src/pages/ManageUsers.jsx:227 | the count of admins is at most the list's length |
| ManageUsers.StatsOf | frontend/src/pages/ManageUsers.jsx:223-228 | total is the list's length, active and suspended add up to the total, admins never exceed it |
| ManageUsers.ActiveSuspendedPartition | frontend/src/pages/ManageUsers.jsx:225-226 | every user is counted exactly once as active or suspended |
| ManageUsers.AdminsCountAppend | frontend/src/pages/ManageUsers.jsx:227 | the admin count of two concatenated lists is the sum of their counts |
| ManageUsers.WordStarts | frontend/src/pages/ManageUsers.jsx:356 | the initials never contain a space |
| ManageUsers.FirstLettersAreWordStarts | frontend/src/pages/ManageUsers.jsx:356 | taking the first character of every piece of `split(' ')` (empty pieces give nothing) equals collecting each non-space character that follows a space or the start |
| ManageUsers.Initials | frontend/src/pages/ManageUsers.jsx:356 | never empty; '?' for a missing name or one without initials, otherwise the characters that start the name's words |
| ManageUsers.InitialsStartWithName | frontend/src/pages/ManageUsers.jsx:356 | a name that does not start with a space has its own first character as first initial |
| ManageUsers.CreateRequest | frontend/src/pages/ManageUsers.jsx:124-137 | a create request is sent exactly when name, email and password are all non-empty, and it carries the form's four fields unchanged |
| ManageUsers.UpdateRequest | frontend/src/pages/ManageUsers.jsx:149-162 | an update is sent exactly when name and email are non-empty; it carries name, email and role, and the password exactly when one was typed |
| ManageUsers.BlankPasswordKeepsHash | frontend/src/pages/ManageUsers.jsx:157-162 | an edit with the password left blank keeps the stored hash and sets name, email and role from the form |
| ManageUsers.RowActionsEnabled | frontend/src/pages/ManageUsers.jsx:383-393 | the toggle and delete buttons are enabled exactly when no action is running and the row is not the signed-in admin's own |
| ManageUsers.OwnRowLocked | frontend/src/pages/ManageUsers.jsx:383-393 | an admin can never suspend or delete their own row from the table |
| ManageUsers.CaughtOutcome | frontend/src/pages/ManageUsers.jsx:79-88 | UNAUTHORIZED goes to the login page, FORBIDDEN shows 'Forbidden – admin only', any other message is shown as it is |
| ManageUsers.Refresh | frontend/src/pages/ManageUsers.jsx:43-92 | no session goes to /login, a non-admin to /dashboard; the list is loaded exactly when the session is an admin's and the users request succeeds (a missing list is empty); a 401 on the list goes to /login and a 403 shows the forbidden message |
| ManageUsers.OnlyAdminsLoad | frontend/src/pages/ManageUsers.jsx:71-77 | the user list is only ever loaded for an admin session |
| ManageUsers.UsersPage.constructor | frontend/src/pages/ManageUsers.jsx:17-30 | the page starts with no session, no users, no error, no modal and an empty form |
| ManageUsers.UsersPage.ApplyRefresh | frontend/src/pages/ManageUsers.jsx:62-92 | the error is cleared unless Refresh fails, when it shows the failure's message; an admin session is stored whether or not the list then loads, and any other answer keeps the old session; the route moves to the login page or the dashboard exactly when Refresh says so and stays otherwise; the list is replaced only by a successful load; the modals and the form are untouched |
| ManageUsers.UsersPage.OpenAddModal | frontend/src/pages/ManageUsers.jsx:98-102 | the add modal opens on an empty form; nothing else changes |
| ManageUsers.UsersPage.OpenEditModal | frontend/src/pages/ManageUsers.jsx:104-114 | the edit modal opens on the user's name, email and role with a blank password; nothing else changes |
| ManageUsers.UsersPage.CloseModals | frontend/src/pages/ManageUsers.jsx:116-122 | both modals are closed, the edited user and the form are cleared; the data is untouched |
| ManageUsers.UsersPage.SubmitCreate | frontend/src/pages/ManageUsers.jsx:124-147 | sends exactly CreateRequest of the form; an incomplete form changes nothing; a refused request shows the server's error or 'Failed to create user' and leaves both modals and the edited user as they were; an accepted one clears the error and closes the modals |
| ManageUsers.UsersPage.SubmitUpdate | frontend/src/pages/ManageUsers.jsx:149-179 | builds exactly UpdateRequest of the form and PUTs it to the id of the user being edited; an incomplete form changes nothing; with no user being edited nothing is sent and the thrown error's message is shown; a refused request shows the server's error or 'Failed to update user' and keeps both modals and the edited user; an accepted one clears the error and closes the modals |
| RecordingRoutes.AllowedFile | backend/app/routes/api/recording_routes.py:20-23 | true exactly when the name has a dot and the lower-cased text after the last dot is webm, mp4, mkv or avi |
| RecordingRoutes.AllowedFileAccepts | backend/app/routes/api/recording_routes.py:22-23 | 'clip.MP4' and 'a.b.webm' are accepted: case is ignored and only the last suffix counts |
| RecordingRoutes.BareExtensionRejected | backend/app/routes/api/recording_routes.py:22-23 | a name without a dot is refused even when it spells an extension |
| RecordingRoutes.InnerExtensionRejected | backend/app/routes/api/recording_routes.py:22-23 | 'clip.webm.txt' is refused: an allowed inner suffix does not help |
| RecordingRoutes.NumericId | backend/app/routes/api/recording_routes.py:103-104 | the camera argument is read as a primary key exactly when it is an int or an all-digit string |
| RecordingRoutes.DigitTextReadsBack | backend/app/routes/api/recording_routes.py:103-104 | the decimal text of any natural number is read back as that number |
| RecordingRoutes.CameraIndexById | backend/app/routes/api/recording_routes.py:104 | the found camera has the id; none found means no camera has it |
| RecordingRoutes.CameraIndexByDevice | backend/app/routes/api/recording_routes.py:108 | the first camera whose device id is the argument's text; none found means no camera has it |
| RecordingRoutes.ResolveCamera | backend/app/routes/api/recording_routes.py:102-110 | a numeric argument that names a camera's id picks that camera; otherwise an existing camera is used exactly when one has the argument's text as device id, else a camera is auto-created |
| RecordingRoutes.NewCamera | backend/app/routes/api/recording_routes.py:112-121 | an auto-created camera is an active webcam whose device id is the argument's text, named by camera_name or 'Webcam ' plus the first 8 characters, located at location_name or 'Local Device' |
| RecordingRoutes.NewRecording | backend/app/routes/api/recording_routes.py:126-144 | a new recording is in status 'recording' with no end, duration or size, and its path is '<camera id>/<YYYY-MM-DD>/<file name>' |
| RecordingRoutes.RecordingFilenameAllowed | backend/app/routes/api/recording_routes.py:131 | every generated recording file name passes the upload extension check (RecordingFilename is 'recording_<camera id>_<HH-MM-SS>.webm') |
| RecordingRoutes.NextRecordingId | backend/app/routes/api/recording_routes.py:146-147 | a new recording's id is larger than every existing one |
| RecordingRoutes.NextCameraId | backend/app/routes/api/recording_routes.py:122-123 | an auto-created camera's id is larger than every existing one |
| RecordingRoutes.IndexOfRecording | backend/app/routes/api/recording_routes.py:165 | the found row has the id; none found (the 404) means no row has it |
| RecordingRoutes.UploadDuration | backend/app/routes/api/recording_routes.py:189-193 | a non-zero form duration wins; otherwise the whole seconds between start and end, truncated |
| RecordingRoutes.Completed | backend/app/routes/api/recording_routes.py:184-193 | an uploaded recording is 'completed' with the end time, the file size and UploadDuration; every other field is kept |
| RecordingRoutes.CutRecordingKeepsUnique | backend/app/routes/api/recording_routes.py:268-269 | deleting a row keeps the recording ids unique |
| RecordingRoutes.CutRecordingLeavesOthers | backend/app/routes/api/recording_routes.py:268-269 | deleting a row removes exactly the rows with its id |
| RecordingRoutes.RecordingStore.constructor | backend/app/routes/api/recording_routes.py:34-322 | the store starts on a camera table with unique ids and no recordings |
| RecordingRoutes.RecordingStore.StartRecording | backend/app/routes/api/recording_routes.py:95-153 | a missing or falsy camera_id is a 400 that changes nothing; otherwise the resolved or auto-created camera gets a new 'recording' row appended, and only auto-creation adds a camera |
| RecordingRoutes.RecordingStore.UploadRecording | backend/app/routes/api/recording_routes.py:165-200 | an unknown id is a 404, a missing video part or an empty file name a 400, and none of them change the table; otherwise exactly that row becomes Completed; ids stay unique |
| RecordingRoutes.RecordingStore.CompleteRecording | backend/app/routes/api/recording_routes.py:209-219 | an unknown id is a 404 that changes nothing; otherwise exactly that row gets the end time, 'completed' and the given duration and size |
| RecordingRoutes.RecordingStore.DeleteRecording | backend/app/routes/api/recording_routes.py:256-271 | an unknown id is a 404; otherwise exactly the row with that id is removed and the others keep their order |
| RecordingRoutes.StreamRecording | backend/app/routes/api/recording_routes.py:234-249 | an unknown id is a 404; a recording that is not 'completed' is refused with 400; a completed recording is streamed from its own path exactly when its file exists, and is the 404 'Recording file not found' otherwise |
| RecordingRoutes.NewRecordingNotStreamable | backend/app/routes/api/recording_routes.py:236-237 | a recording just started cannot be streamed |
| RecordingRoutes.Filtered | backend/app/routes/api/recording_routes.py:54-67 | exactly the recordings that meet the camera, date and status filters |
| RecordingRoutes.Page | backend/app/routes/api/recording_routes.py:73 | SQL OFFSET/LIMIT: the page is a prefix of the rows from the clamped offset, of exactly min(limit, rows left) rows for a non-negative limit; nothing past the end; everything from the offset when the limit is negative |
| RecordingRoutes.ListRecordings | backend/app/routes/api/recording_routes.py:46-80 | total counts every matching recording; the page is the matching recordings newest first, cut by offset and limit; limit and offset are echoed |
| RecordingRoutes.PageElements | backend/app/routes/api/recording_routes.py:73 | the page's i-th row is the row at offset plus i |
| RecordingRoutes.ListedMatchFilters | backend/app/routes/api/recording_routes.py:54-73 | every listed recording exists and meets the filters |
| RecordingRoutes.ListedNewestFirst | backend/app/routes/api/recording_routes.py:70 | the listed recordings are in non-increasing start time |
| RecordingRoutes.MalformedDateIgnored | backend/app/routes/api/recording_routes.py:57-64 | a date that does not parse lists the same as no date filter |
| RecordingRoutes.FilteredSame | backend/app/routes/api/recording_routes.py:54-67 | two queries that select the same recordings give the same filtered list |
| Sorting.Insert | backend/app/utils/geolocation.py:66 | inserting into a list adds exactly one element |
| Sorting.SortByKey | backend/app/utils/geolocation.py:66 | sorting keeps the list's length |
| Sorting.InsertPermutes | backend/app/utils/geolocation.py:66 | insertion adds exactly the new element to the multiset |
| Sorting.SortPermutes | backend/app/utils/geolocation.py:66 | `sort(key=…)` is a permutation of the list |
| Sorting.InsertSorted | backend/app/utils/geolocation.py:66 | inserting into a list sorted by key keeps it sorted by key |
| Sorting.SortSorted | backend/app/utils/geolocation.py:66 | `sort(key=…)` leaves the list in non-decreasing key order |
| Sorting.WithKeyAppend | backend/app/utils/geolocation.py:66 | the elements with one key value, taken from a concatenation, are those of each part in turn |
| Sorting.WithKeyInsert | backend/app/utils/geolocation.py:66 | inserting an element puts it after every element with the same key |
| Sorting.WithKeyNone | backend/app/utils/geolocation.py:66 | a list whose every key is above k has no element with key k |
| Sorting.SortStable | backend/app/routes/api/user_dashboard.py:126 | the sort is stable: elements with equal keys keep their original relative order (used ascending for facilities and on the negated timestamp for the activity feed) |
| Surveillance.TotalPages | frontend/src/pages/Surveillance.jsx:253 | no pages exactly when there are no recordings; otherwise the fewest pages of 12 that hold them all |
| Surveillance.CurrentPage | frontend/src/pages/Surveillance.jsx:254 | the 1-based page whose 12-row window contains the offset |
| Surveillance.PrevOffset | frontend/src/pages/Surveillance.jsx:652 | the previous offset is never negative and stays on a page boundary |
| Surveillance.NextOffset | frontend/src/pages/Surveillance.jsx:663-665 | the next offset never passes the last page's start nor moves more than one page, and stays on a page boundary |
| Surveillance.PrevGoesBack | frontend/src/pages/Surveillance.jsx:652-653 | from any page but the first, Previous shows the page before |
| Surveillance.NextGoesForward | frontend/src/pages/Surveillance.jsx:662-666 | from any page before the last, Next shows the page after |
| Surveillance.NextNeverPastLast | frontend/src/pages/Surveillance.jsx:663-665 | Next never shows a page beyond the last |
| Surveillance.NextWithoutRecordings | frontend/src/pages/Surveillance.jsx:663-665 | with no recordings there are zero pages and Next's arithmetic gives offset -12 (the button is not rendered then) |
| Surveillance.FilteredRecordings | frontend/src/pages/Surveillance.jsx:242-251 | a blank search shows every loaded recording; otherwise exactly those whose camera name, location or file name contains the lower-cased, untrimmed query |
| Surveillance.RecordingsMatching | frontend/src/pages/Surveillance.jsx:245-250 | never longer than the list; exactly the recordings matching the query |
| Surveillance.RecordingsMatchingAppend | frontend/src/pages/Surveillance.jsx:245-250 | filtering distributes over concatenation, so the matching recordings stay in list order |
| Surveillance.BlankSearchShowsAll | frontend/src/pages/Surveillance.jsx:243 | a query of spaces only shows the whole list |
| Surveillance.PaddedQueryNotTrimmed | frontend/src/pages/Surveillance.jsx:243-244 | the query is trimmed only for the blank test: ' ' + a camera's name finds nothing |
| Surveillance.JsRem60 | frontend/src/pages/Surveillance.jsx:223 | JavaScript's remainder by 60: the sign of the dividend, below 60 in size, congruent to it |
| Surveillance.FormatDuration | frontend/src/pages/Surveillance.jsx:220-221 | a missing or zero duration shows '--:--' |
| Surveillance.FormatDurationReadsBack | frontend/src/pages/Surveillance.jsx:220-227 | for positive seconds the text is minutes, a colon and two digits of seconds below 60, and reading it back gives the seconds |
| Surveillance.DurationParts | frontend/src/pages/Surveillance.jsx:222-226 | positive seconds show as the two-padded minutes and the two-padded seconds |
| Surveillance.ShortNumber | frontend/src/pages/Surveillance.jsx:224-226 | a number below 100 has at most two digits, so padding to two never leaves it longer |
| Surveillance.ColonSplit | frontend/src/pages/Surveillance.jsx:224-226 | text joined by a colon to two characters splits back into its parts |
| Surveillance.PaddedValue | frontend/src/pages/Surveillance.jsx:224-226 | a zero-padded number is all digits and reads back as the number |
| Surveillance.FileSizeLabel | frontend/src/pages/Surveillance.jsx:229-234 | a missing or zero size has no label; below 1024 it is in bytes; below 1 MiB in KB, otherwise in MB; the KB and MB values are the size divided by 1024 and 1024² |
| Surveillance.FormatFileSize | frontend/src/pages/Surveillance.jsx:229-234 | '--', '<n> B', '<x.x> KB' or '<x.x> MB' according to the unit FileSizeLabel chooses |
| Surveillance.RecordingsQuery | frontend/src/pages/Surveillance.jsx:118-122 | limit 12 and the offset are always sent last; camera_id and date are sent exactly when selected and non-empty, with their values |
| Surveillance.WithoutRecording | frontend/src/pages/Surveillance.jsx:205 | exactly the recordings whose id differs, never more |
| Surveillance.SurveillancePage.constructor | frontend/src/pages/Surveillance.jsx:42-59 | the page starts with no recordings, offset 0, no filters, no search and nothing playing |
| Surveillance.SurveillancePage.Query | frontend/src/pages/Surveillance.jsx:118-122 | the request the page sends is RecordingsQuery of its filters and offset |
| Surveillance.SurveillancePage.Loaded | frontend/src/pages/Surveillance.jsx:128-132 | a loaded page replaces the recordings and the total (missing ones read as empty and 0) and nothing else |
| Surveillance.SurveillancePage.PreviousPage | frontend/src/pages/Surveillance.jsx:652 | the offset becomes PrevOffset; nothing else changes |
| Surveillance.SurveillancePage.NextPage | frontend/src/pages/Surveillance.jsx:649-666 | callable only while the button is rendered (more than one page) and enabled (the current page is before the last); the offset becomes NextOffset; nothing else changes |
| Surveillance.SurveillancePage.SelectCamera | frontend/src/pages/Surveillance.jsx:430-434 | the camera filter becomes the choice ('' clears it) and the offset goes back to 0 |
| Surveillance.SurveillancePage.SelectDate | frontend/src/pages/Surveillance.jsx:453-457 | the date filter becomes the choice ('' clears it) and the offset goes back to 0 |
| Surveillance.SurveillancePage.SetSearch | frontend/src/pages/Surveillance.jsx:242-251 | only the search text changes; the offset and the server query do not |
| Surveillance.SurveillancePage.ClearFilters | frontend/src/pages/Surveillance.jsx:492-499 | both filters and the search are cleared and the offset goes back to 0 |
| Surveillance.SurveillancePage.PlayRecording | frontend/src/pages/Surveillance.jsx:215-218 | the recording is selected and playing |
| Surveillance.SurveillancePage.DeleteRecording | frontend/src/pages/Surveillance.jsx:195-213 | only a confirmed, successful delete removes the recording; the selection is cleared exactly when it was the deleted recording |
| UploadRecognition.AllowedImage | backend/app/routes/upload_recognition.py:11-14 | true exactly when the name has a dot and the lower-cased text after the last dot is png, jpg or jpeg |
| UploadRecognition.UpperCaseExtensionAllowed | backend/app/routes/upload_recognition.py:13-14 | 'face.JPG' is accepted: the extension is compared in lower case |
| UploadRecognition.LastSuffixDecides | backend/app/routes/upload_recognition.py:13-14 | 'a.b.png' is accepted and 'face.png.gif' refused: only the suffix after the last dot counts |
| UploadRecognition.NoDotRefused | backend/app/routes/upload_recognition.py:13-14 | a name without a dot is refused even when it spells an extension |
| UploadRecognition.PathJoin | backend/app/routes/upload_recognition.py:33-38 | POSIX `os.path.join`: an absolute second part replaces the first; otherwise the parts are joined with one '/'; the result always ends with the second part |
| UploadRecognition.SavedPath | backend/app/routes/upload_recognition.py:33-38 | the saved path ends with the secured file name and, for slash-free secured names, is 'dataset/<secured inmate name>/<file name>' (SavedName is the secured '<inmate name>_<timestamp>.jpg') |
| UploadRecognition.UploadDecision | backend/app/routes/upload_recognition.py:23-59 | a missing or empty file, inmate_name or location is a 400 'missing fields'; with all three, a disallowed file name is a 400 'unsupported'; otherwise a 201 with the given name and location and the file name and path it is saved under |
| UploadRecognition.Dataset.UploadFace | backend/app/routes/upload_recognition.py:18-59 | a refused request saves nothing and emits nothing; an accepted one saves exactly one file at the returned path and emits 'face_uploaded' with it unless the emit fails, which never changes the 201 |
| UploadRecognition.Dataset.constructor | backend/app/routes/upload_recognition.py:10 | the dataset starts with no saved files and no events sent |
| UserDashboard.CountUnresolved | backend/app/routes/api/user_dashboard.py:46-48 | the count of unresolved alerts of a level never exceeds the number of alerts |
| UserDashboard.StatusOf | backend/app/routes/api/user_dashboard.py:55-60 | 'critical' exactly for a score of at least 20, 'warning' exactly for 5 to 19, 'operational' exactly below 5 |
| UserDashboard.AlertScoreAppend | backend/app/routes/api/user_dashboard.py:50 | the weighted score (danger 10, warning 3, info 1, resolved 0) of two alert lists together is the sum of their scores (AlertScore is that weighted score) |
| UserDashboard.CountAppend | backend/app/routes/api/user_dashboard.py:46-48 | the per-level count of two alert lists together is the sum of their counts |
| UserDashboard.StatusMonotone | backend/app/routes/api/user_dashboard.py:50-60 | more alerts never lower the system status |
| UserDashboard.DangerAlertsStatus | backend/app/routes/api/user_dashboard.py:52-57 | one open danger alert makes the status 'warning', two make it 'critical' |
| UserDashboard.Percentage | backend/app/routes/api/user_dashboard.py:142-148 | 100 when the whole is 0; otherwise part × 100 / whole, within 0 and 100 whenever the part does not exceed the whole |
| UserDashboard.TimeAgoOf | backend/app/routes/api/user_dashboard.py:205-227 | 'Unknown' exactly without a time, 'Just now' exactly under a minute, the date exactly from a week on; otherwise the count of whole minutes (1-59), hours (1-23) or days (1-6) that fit in the elapsed seconds |
| UserDashboard.RenderTimeAgo | backend/app/routes/api/user_dashboard.py:218-225 | '<count> <unit>' with an 's' exactly when the count is not 1, then ' ago' |
| UserDashboard.PluralIffNotOne | backend/app/routes/api/user_dashboard.py:219-225 | the label ends in 's ago' exactly when the count is not 1 |
| UserDashboard.ActivityLevel | backend/app/routes/api/user_dashboard.py:105 | a resolved alert is 'success'; an open one keeps 'warning' or 'danger' and every other level becomes 'info' |
| UserDashboard.NameOf | backend/app/routes/api/user_dashboard.py:88-99 | a name is found exactly when the id is present, non-zero and in the table |
| UserDashboard.AlertActivity | backend/app/routes/api/user_dashboard.py:101-111 | an alert's entry is an alert item with its id and timestamp and ActivityLevel's level |
| UserDashboard.MatchActivity | backend/app/routes/api/user_dashboard.py:114-123 | a match's entry is a match item with its id and timestamp and level 'warning' |
| UserDashboard.AlertEntries | backend/app/routes/api/user_dashboard.py:86-111 | one entry per alert |
| UserDashboard.MatchEntries | backend/app/routes/api/user_dashboard.py:113-123 | one entry per match |
| UserDashboard.Merged | backend/app/routes/api/user_dashboard.py:84-123 | one entry per alert and per match |
| UserDashboard.BuildAlertEntries | backend/app/routes/api/user_dashboard.py:84-111 | the loop over the alerts builds exactly AlertEntries |
| UserDashboard.BuildMatchEntries | backend/app/routes/api/user_dashboard.py:113-123 | the loop over the matches appends exactly MatchEntries |
| UserDashboard.RecentActivity | backend/app/routes/api/user_dashboard.py:75-132 | total_count counts every alert and match; the feed is the first 10 of the merged entries sorted newest first |
| UserDashboard.FeedOrdered | backend/app/routes/api/user_dashboard.py:126-131 | the feed holds at most 10 entries; dated entries come newest first and undated ones last; entries with equal timestamps keep their merged order (NewestFirst is the ascending key whose stable sort gives this order) |

## Left out

**Numbers and text**
- Floating point: distances, weights, percentages and coordinates are exact `real`s. NaN, rounding error, Python's `round` and JavaScript's `toFixed` are not modelled; `round(x, 2)` and `toFixed(1)` are abstract function parameters.
- Text: lower-casing and whitespace trimming are ASCII only, and one whitespace set (space, tab, line feed, vertical tab, form feed, carriage return) serves both languages. Python's `str.strip()` also strips the ASCII separators \x1c-\x1f, which the model does not strip. Unicode case folding, non-ASCII whitespace and UTF-16 surrogate pairs (JavaScript's `n[0]` in the initials) are not modelled.
- InmateProfiles.SortKeys: `localeCompare` is modelled as code-unit lexicographic order, not as the locale's collation.
- Dates: ISO timestamp strings, `strftime`, `toLocaleString` and the clock are not modelled. Instants are whole seconds, which the backend compares in the same order as the ISO strings it sorts by; formatted dates are inputs.

**Abstract operations**
- Password hashing and its check (`generate_password_hash`, `check_password_hash`) are abstract functions. The salt is not modelled.
- werkzeug's `secure_filename`, haversine, cosine distance, the `hog` call and the face, periocular and glasses extractors are abstract functions or inputs, as are the noise, blur and eye estimators and every OpenCV pixel transform.
- The periocular extractor and the glasses detector are inputs, so their internals are not modelled.

**Storage, transport and timers**
- SQL: SQLAlchemy and sqlite are modelled as sequences in primary-key order, and `.first()` is the first matching row in that order. Rows with equal sort keys in `ORDER BY` keep table order, which SQL does not promise.
- Files, HTTP, Socket.IO, `getUserMedia`, the canvas and the audio element are not modelled. What they return is an input, and what is written or emitted is appended to a sequence.
- Timers and polling intervals are not modelled; each tick or callback is a method call.
- The `login_or_jwt_required` and `login_required` decorators on the recording, upload and dashboard routes are not modelled. Those handlers are modelled for an authenticated caller.
- The per-identity deduplication window is not modelled. `backend/app/models/active_recognition.py` only describes it in a docstring and no shown file implements it.

**Backend routes**
- AdminApi.AdminUserStore.UpdateUser: a key sent as JSON null is treated as absent. In the source it is assigned, and the NOT NULL username then fails at commit.
- AuthRoutes.LegacyLoginDecision: an email or username sent as JSON null is treated as absent. In the source `.strip()` on None raises, giving a 500.
- AuthRoutes.LegacyLogin: takes the already-stripped email and username. The reading of the request is LegacyLoginDecision, and LegacyLogin's result is the public user rather than the `{ok, is_admin, user}` envelope.
- AuthApi.Public: the contract names the id, username, email and the two flags. The facility, address and coordinates are copied but not stated.
- LegacyApp.UserTable.RegisterUser: models the reconciled `users` table of the Findings below, not the one app.py builds. The `USER-<timestamp>` user_id comes from the clock, so it is the `userId` parameter.
- LegacyApp: app.py reassigns DATABASE_PATH to a relative path (line 132), so its sqlite3 connections and SQLAlchemy open the same file only when the server runs from the folder of app.py; the model assumes they do.
- EmbeddingService.FaceOf: uses the corrected emptiness test of the Findings below. For a detection whose padded crop has a negative right or bottom edge, the source embeds the strip numpy reads from the far edge, and the model skips the detection.
- EmbeddingService.DetectAllFaces: follows FaceOf, so it shares that difference from the source.
- UserDashboard.RecentActivity: the two `LIMIT 20` queries are inputs, already cut to their newest 20 rows.
- RecordingRoutes.UploadDuration: the elapsed time is a real number of seconds; timedelta's microsecond resolution is not modelled.
- RecordingRoutes.ResolveCamera: the camera table is modelled with the columns the route reads and writes (camera_type, device_id, latitude, longitude). backend/app/models/camera.py:4-8 declares only id, name, location and status, so against that model the lookup by device_id and the auto-created camera fail with an error; the model follows the route as if those columns existed.
- RecordingRoutes.NewCamera and RecordingRoutes.StartRecording: share the assumed camera columns of ResolveCamera.
- Geolocation.GetDetectionLocation: assumes camera `latitude` and `longitude` columns. backend/app/models/camera.py:4-8 does not declare them, so as written `camera.latitude` at backend/app/utils/geolocation.py:91 raises AttributeError for any camera the lookup finds; the model returns the camera's coordinates or the defaults instead.
- Geolocation.ZeroCoordinateFallsBack: rests on the same assumed coordinate columns as GetDetectionLocation.
- LegacyApp.Predict and LegacyApp.VideoFeedLabel: assume inmate rows with a parsed `face_encoding`. The inmates table that init_db creates (app.py:83-88) has no `face_encoding` or `face_image_path` column, so on such a database the INSERT at app.py:248 and the SELECTs at app.py:303 and app.py:368 raise, and every well-formed /predict request ends in the 500 of app.py:341-343. A NULL encoding would likewise make the `eval` raise. The model follows the code as if the column existed and held a valid list.
- RecordingRoutes.ResolveCamera: `camera_id` is modelled as absent, an integer or a string. A JSON boolean (an int in Python, so `true` names camera 1) and a JSON float (which falls through to the device lookup) are not modelled.
- RecordingRoutes.ListRecordings: the query is taken after conversion. The defaults `limit=50` and `offset=0` and the fallback to them when a value does not convert to an int (recording_routes.py:49-50) are not modelled.
- UserDashboard.RecentActivity: format_time_ago is the `timeAgo` parameter. TimeAgoOf and RenderTimeAgo specify it for a timestamp of a given age, but the model does not compose them with the clock.
- LegacyApp.NextId and AdminApi.NextUserId: a new key is modelled as one more than the largest key. sqlite may reuse the rowid of a deleted largest row, or with AUTOINCREMENT never reuse it; the model only promises a key larger than every existing one.
- The CSRFProtect instance of backend/app/__init__.py and its exemptions for the API blueprints are not modelled; the admin handlers are modelled for a request that passes it.
- Surveillance.FormatDuration: the round trip is proved for positive whole seconds. Negative or fractional durations are not covered.

**Frontend pages**
- AlarmContext.AlarmRegistry.StartSoundCycle: the timer callback's stale closure over React state is not modelled. Each elapsed period is a separate method.
- AlarmContext.AlarmRegistry.CheckResolvedAlarms: the model polls the current alarm map. In the source the interval is created once (AlarmContext.jsx:195-197) and keeps the `checkResolvedAlarms` of the render that created it, so alarms raised after polling starts are never resolved by the poll.
- JavaScript object key order in the groups object is not modelled. The groups are sorted by key before use, so the page does not depend on it.
- LiveMonitoring.LiveMonitoringPage.StartRecognition: the retry timer used while the video is not yet ready is not modelled.
- LiveMonitoring.LiveMonitoringPage.CaptureAndRecognize: each interval tick is a call on the current page state. In the source the `setInterval(captureAndRecognize)` callback keeps the closure of the render that started it, so state changed after the start (the selected feed, for one) is not seen by later ticks.
- LiveMonitoring.LiveMonitoringPage.LoadFeeds: the page reads `camsData.cameras`, while `/api/cameras` of backend/app/routes/api/camera_routes.py:10 answers a bare list. Against that route `cameras` is undefined and the page keeps the feeds it has (at first the default webcam), which LoadFeeds gives for an absent list (`cameras == None`).
- ManageCameras: the mapping of the initial camera load, `openCreate`/`openEdit` (form population) and `detectLocation` (browser geolocation) are not modelled.
- ManageUsers: `alert`, `confirm`, the toggle and delete handlers (a request followed by `refresh`) and the refresh after a successful save are not modelled. Their list effect is ApplyRefresh on the server's next answer.

## Findings

| source | as written | input that shows it | evidently intended | confidence | as-written member | corrected member |
|---|---|---|---|---|---|---|
| backend/app/utils/embedding_service.py:621-657 | the clamped right edge `x2 = min(w, x2)` is not raised to 0. For a detection wholly left of the image, the padded crop's stop stays negative. numpy reads a negative slice stop from the end, so `face_crop.size == 0` is false and a strip of unrelated pixels is embedded as a face. | image 100×100, detection box (-50, 10, -30, 60), probability 0.9: the clamped box is (0, 10, -30, 50) and the crop's columns 0:-20 hold 80 pixels | a detection whose padded crop ends at or before the image's left or top edge holds no pixel of the image and is skipped | high (not executed) | EmbeddingService.NegativeStopCropNotEmpty | EmbeddingService.OutsideCropSkipped |
| app.py:58-82 | `db.create_all()` runs at import and builds `users` from the `User` model: status is NOT NULL, its 'active' default lives only in SQLAlchemy, and there is no user_id. init_db's `CREATE TABLE IF NOT EXISTS` then changes nothing, so register_user's INSERT (line 206) names a column the table lacks. | a fresh database and POST /register_user with username 'a', password 'p' and role 'user': the checks pass, the INSERT raises, and the answer is a 500 | one `users` table holding both the UNIQUE user_id and a status that defaults to 'active' | high when the server runs from the folder of app.py (not executed) | LegacyApp.RegisterFailsOnOrmTable | LegacyApp.CorrectedTableRegisters |
| frontend/src/pages/LiveMonitoring.jsx:361-388 | `handleDismissAlarm` is a `useCallback` placed after the `if (loading) return` and `if (error) return` early returns. The loading render calls 31 hooks and the loaded render 32, which breaks React's rule that every render calls the same hooks in the same order. | the first render (loading is true), followed by the render after the data loads | every hook is declared before the early returns | high (not executed) | LiveMonitoring.AsWrittenBreaksHookOrder | LiveMonitoring.CorrectedKeepsHookOrder |
