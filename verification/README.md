# FaceScan backend core, modelled in Dafny

This project models the decision logic of a facial-recognition access-control
backend (a Flask service in Python):

- **Anti-spoof fusion** (`Back/test.py`). `check_image` accepts only frames that are exactly
  3 wide for 4 high. `test` refuses a bad aspect ratio and then a missing or degenerate face box.
  It then crops the frame once per model file in the model directory and sums the 3-label
  predictions from zero. It returns 1 ("real") exactly when the first arg-max of the sum is label 1.
- **Gallery recognition** (`Back/util.py`). `recognize` returns `no_persons_found` when the
  frame yields no face or no encoding. Otherwise it scans the gallery listing in order and
  loads only `.pickle` files. It returns the name of the first file whose stored encoding
  matches, with every `.pickle` removed. When nothing matches it returns `unknown_person`.
- **Requests and the user/log store** (`Back/main.py`). The `users` and `logs` tables are a
  class holding sequences. `get_user_by_face_encoding` is a first-match scan. `save_user`
  enforces the UNIQUE username, and `log_user_action` enforces the foreign key to `users`.
  The `/login` and `/logout` routes are gate ladders: decode, normalise the aspect,
  anti-spoof, locate, encode, look up, log. `/register` checks the username, then decodes,
  locates, encodes and saves, with no anti-spoofing.

Collaborators whose code is not part of this model are function-valued fields of datatypes
and stay uninterpreted. These are the face-box detector, `parse_model_name`, `CropImage.crop`,
the classifier's `predict`, the `face_recognition` functions, base64 + `cv2.imdecode`, and
unpickling. The directory listings (`os.listdir`) are sequences given as inputs. Whether a
database connection succeeds is a boolean input of each store operation. Traces record
which collaborators an operation consults: the ghost `Call` and `Step` sequences, and the
list of gallery files `Recognize` loads (an extra output that `recognize` itself does not return). This is how "returns before any model is run" and "later gates are not consulted"
are stated.

Modules: `Wrappers` (Option, Result), `Vision` (frames, `os.path.join`, the face library),
`AntiSpoof`, `Recognition`, `Store`, `Routes`.

## Model

| member | source | states |
|---|---|---|
| `AntiSpoof.CheckImageMeansThreeQuarters` | Back/test.py:19-25 | The integer test 4·width = 3·height holds exactly when width/height equals 3/4 in exact arithmetic. |
| `AntiSpoof.ArgMax` | Back/test.py:54 | The result is an index below 3 that holds the maximum, and every earlier index is strictly smaller, so ties go to the lowest index. |
| `AntiSpoof.Verdict` | Back/test.py:54-58 | The result is 0 or 1, and it is 1 exactly when the real score is strictly above the fake score and not below the other score. |
| `AntiSpoof.Confidence` | Back/test.py:55 | The reported value is half the winning sum: no score exceeds twice it, and some score equals twice it. |
| `AntiSpoof.Liveness` | Back/test.py:27-58 | The result is 0 or 1. It is 1 exactly when the frame passes the 3:4 check, the detector's box has positive width and height, and the real label wins the summed scores. |
| `AntiSpoof.Test` | Back/test.py:27-58 | The returned label equals `Liveness`. A bad aspect ratio returns 0 with no collaborator called. A missing or degenerate box returns 0 after the detector only. Otherwise the calls are the detection followed by one crop and one prediction per listed model. |
| `AntiSpoof.ModelCalls` | Back/test.py:38-53 | Each listed model contributes exactly two calls: a crop and a prediction. |
| `AntiSpoof.ModelCallsAt` | Back/test.py:39-52 | For the i-th model, the crop gets the frame and box, the parsed scale, out_w = w_input and out_h = h_input, with crop false exactly when the scale is None. The prediction then runs on that crop under the path `model_dir/name`. |
| `AntiSpoof.TotalAppend` | Back/test.py:36-52 | Summing two listings one after the other gives the sum of their two totals. |
| `AntiSpoof.TotalOrderIndependent` | Back/test.py:38-52 | Two listings with the same models in any order give the same summed scores, so the `os.listdir` order never changes the label. |
| `AntiSpoof.EmptyListingIsSpoof` | Back/test.py:36-58 | With no model listed the sum stays at zeros and the label is 0. |
| `AntiSpoof.TieBreaksTowardFake` | Back/test.py:54-58 | Equal fake and real sums never give arg-max 1, and the label is 0. |
| `AntiSpoof.TwoAgreeingModels` | Back/test.py:52-55 | Two models that each score [0, 2, 0] sum to [0, 4, 0], which gives label 1 and reported value 2. |
| `Recognition.PickleFiles` | Back/util.py:16-19 | The files the scan loads are all `.pickle` files, and there are no more of them than listed files. |
| `Recognition.PickleFilesKeepsEveryPickle` | Back/util.py:16-19 | Every `.pickle` file of the listing is among the files a full scan loads. |
| `Recognition.Recognize` | Back/util.py:7-23 | No face or no encoding gives `no_persons_found` with no gallery file loaded. Otherwise the query is the first encoding. The result is the stored name of the first `.pickle` file in listing order whose encoding matches within 0.6, and the loaded files are exactly the `.pickle` files up to it. If no `.pickle` file matches, the result is `unknown_person` after every `.pickle` file was loaded. |
| `Recognition.RemoveAllWithoutOccurrence` | Back/util.py:22 | Removing a pattern that never occurs leaves the name unchanged. |
| `Recognition.StoredNameDropsSuffix` | Back/util.py:22 | A trailing `.pickle` is removed without changing how the rest of the name is rewritten. |
| `Recognition.StoredNameOfPlainName` | Back/util.py:22 | `x.pickle` stands for `x` whenever `x` holds no `.pickle`. |
| `Recognition.StoredNameRemovesEveryOccurrence` | Back/util.py:22 | Every occurrence is removed, not only the suffix: `a.pickle.pickle` stands for `a`. |
| `Store.FirstRecognized` | Back/main.py:101-107 | A found user is the first user in query order whose stored encoding matches. Nothing is found exactly when no user matches. |
| `Store.UserStore.constructor` | Back/main.py:39-76 | The freshly created tables are empty, the id counter starts at 1, and the store invariant holds. |
| `Store.UserStore.GetUserByFaceEncoding` | Back/main.py:89-115 | The result is the first matching user when the database is reachable, and None otherwise. |
| `Store.UserStore.SaveUser` | Back/main.py:139-168 | The insert succeeds exactly when the database is reachable and the username is not taken. On success exactly one row is appended, with the next id and the given image. On failure the users are unchanged. Logs are never touched, and ids stay increasing with usernames unique. |
| `Store.UserStore.LogUserAction` | Back/main.py:117-137 | The insert succeeds exactly when the database is reachable and the id belongs to a user. On success exactly one (id, action) row is appended, and otherwise the logs are unchanged. |
| `Store.UsernamesIdentifyUsers` | Back/main.py:51 | In a valid store, two rows with the same username are the same row. |
| `Routes.NormalizeAspect` | Back/main.py:183-186 | A 3:4 frame is kept as it is. Any other frame keeps its height and gets the width ⌊3·height/4⌋. The normalisation fails exactly when that width is 0, which happens at height 1. |
| `Routes.NormalizedFramePassesCheck` | Back/main.py:183-188 | After normalisation the 3:4 check passes exactly when the frame already was 3:4 or its height is a multiple of 4. |
| `Routes.Attend` | Back/main.py:171-228 | A decoder exception (malformed base64, or the empty buffer a missing `image` gives), an undecodable image or an empty resize stops at decoding with its own refusal. A decoded frame that is not 3:4 and whose height is not a multiple of 4 is always refused, as spoofing or, at height 1, as an error. The steps taken are a prefix of the ladder, and success means the whole ladder ran. A refusal leaves the logs unchanged, and the store invariant is kept. |
| `Routes.Admit` | Back/main.py:188-223 | The first failing gate decides the refusal: spoofing, then no face, then no encoding, then unknown or unreachable user. Later collaborators are not consulted. On success the matched user is greeted by name, and at most one (id, action) row is appended: none when the log insert fails, which the reply ignores. |
| `Routes.Login` | Back/main.py:170-228 | The same ladder as `Attend` with `in` rows: decoding refusals, the forced refusal of a non-3:4 frame whose height is not a multiple of 4, the gate that fires and the steps taken. A refused login leaves the logs unchanged. An accepted one appends exactly one `in` row for the greeted user when the log insert succeeds, and none when it fails. |
| `Routes.Logout` | Back/main.py:230-288 | As `Routes.Login`, with `out` rows. |
| `Routes.Register` | Back/main.py:290-343 | An empty username is refused before decoding. Anti-spoofing is never consulted and the frame is used as decoded. No face and no encoding are refused in that order. Otherwise the reply is success exactly when `save_user` succeeds, that is when the database is reachable and the name is free. Success appends one user with the first encoding and the frame and advances the id counter by one; a refusal leaves users and counter unchanged. |

## Left out

- HTTP routing, the JSON request and reply shapes and their message texts, and `app.run`. A reply is `Success(name)` or `Refused(reason)`, with one reason per distinct message.
- MySQL connections, SQL text and table creation. Each operation takes a flag that says whether its connection succeeds.
- The listing endpoints `get_users`, `get_user_image` and `get_logs`, and timestamps. These are read-only formatting of the same tables.
- The import-time directory creation and checks, and the `__main__` blocks.
- Pixel content. `cv2.resize`, `cv2.cvtColor` and JPEG encoding keep only the frame's dimensions and channel order (the login and register routes hand BGR frames to the face library, while `recognize` converts to RGB first).
- Base64 and `cv2.imdecode` are one uninterpreted decoder whose result is an exception, an undecodable image (None), or a frame. The exception covers a malformed base64 string and the empty buffer that a missing or empty `image` field decodes to, which `cv2.imdecode` refuses with an error rather than None.
- The internals of the anti-spoof detector, the model-name parser, the cropper and the classifier. Their code is not part of this model; they are uninterpreted functions.
- The internals of `face_recognition`. The distance metric and whether the tolerance bound is strict live in that library; a match is an uninterpreted predicate called with tolerance 0.6.
- Floating-point rounding of the prediction sums and of `width/height`. Scores are exact reals, and the aspect test is 4·width = 3·height.
- Timing, printing, and `device_id`, which only selects the device of the abstracted predictor.
- Routes.Attend: it does not model exceptions raised inside the anti-spoof models, the face library or unpickling. The route catches these and replies with an error. Only a decoder exception and the empty resize at height 1 are modelled as `Crashed`. The empty resize is modelled because OpenCV refuses a zero target width.
- Routes.Register: it does not model exceptions raised inside the face library. The route catches these and replies with an error.
- Recognition.Recognize: it does not model a failing `pickle.load`, which raises out of `recognize`.
- Store.UserStore.SaveUser: it compares usernames by exact string equality. The database's collation may also treat case variants as equal, and the 100-character column limit is not modelled. A rejected insert leaves the id counter unchanged, although MySQL may skip an AUTO_INCREMENT value.
- Store.UserStore.GetUserByFaceEncoding: query order is taken to be the order of the `users` sequence (insertion order), because the SELECT has no ORDER BY.
- Per-model failure handling: there is no per-model crop error, timeout or fail-closed rule for an unavailable model. The sum always includes every listed model, and an empty listing yields label 0.
