# Smart-parking plate detector: a Dafny model of its decision core

The terminal script `nesm-LAPTOP-0RFHURIK.py` reads frames from a camera and
runs OCR on each frame. It turns the text it reads into licence-plate
candidates. After the operator presses `'c'`, a debounce gate admits one
candidate. It refuses the plate it admitted last until more than 5 seconds
have passed, but a different plate in between resets that. An admitted plate
is reconciled against the parking ledger. If the plate has an open `IN` row,
the terminal asks the ledger to log an exit, which bills it unless the ledger
answers with an error. Otherwise it asks the ledger to log an entry. The
dashboard is told about every billed exit and every entry counted as logged.

This project models the four pieces of that script that make decisions.

- `plate_text.dfy` (module `PlateText`) models `clean_text` and the plate
  pattern `[A-Z]{2}[0-9]{1,2}[A-Z]{0,2}[0-9]{3,4}`, as pure functions.
  - Normalisation is `strip()`, `upper()` on ASCII letters, and removal of
    the space character.
  - The backtracking regular-expression engine is modelled at one start
    index: it tries the twelve combinations of repetition counts in the
    order a backtracking engine does.
  - The scan for the leftmost start index models `re.findall(...)[0]`.
  - The lemmas prove that `clean_text` returns exactly the leftmost-longest
    substring of the normalised text that matches the pattern, and `None`
    exactly when there is none. They also prove that case and spaces in the
    input do not change the result.
- `candidate.dfy` (module `Candidate`) models the scan of the OCR results in
  `detect_plate_easyocr`:
  - the 0.6 confidence threshold, the plate check and the four-corner check;
  - a crop-and-save step that may raise;
  - the integer box `(x, y, w, h)` built from the corners.

  `Select` is the scan as a function. `DetectPlate` is the loop, proved
  equal to it.
- `reconcile.dfy` (module `Reconciliation`) models reconciliation of an
  admitted plate as one pure decision. It decides:
  - which ledger transaction is made;
  - which status message is shown;
  - which notifications are posted, in order.

  The answers of the ledger query, `log_exit` and `log_entry` are inputs.
- `detector.dfy` (module `Detector`) models the loop's state:
  - the `'c'` key arms detection;
  - the debounce test admits a candidate;
  - an admission records plate and time, reconciles, and disarms.

  `GateStep` is the gate as a function on a `Gate` value. `After` folds it
  over a sequence of frames, and the lemmas about those traces give the
  debounce guarantees. The class `Terminal` holds the loop's globals as
  fields. Its method `Tick` is one pass of the loop body, proved against
  `GateStep` and `Reconcile`.
- `wrappers.dfy` holds the `Option` type.

Two behaviours of the code are worth knowing. The model keeps both.

- The gate state is updated before the ledger is touched. Lines 182-184 set
  `last_detected_plate` and `last_detection_time` as soon as a candidate is
  admitted. A failed transaction for the same plate therefore waits out the
  cooldown. Detection is also disarmed whatever the outcome (line 278), so
  the operator must press `'c'` again.
- In the entry branch (lines 253-271), every answer of `log_entry` other than
  `already_in`, `db_locked` and `full` counts as a logged entry and is posted
  to the dashboard. That includes a `"db_error"` answer, which the exit
  branch reports as an error. `EntryCatchAllIsSuccess` states this behaviour.

## Model

| member | source | states |
|---|---|---|
| PlateText.UpperChar | nesm-LAPTOP-0RFHURIK.py:102 | a lower-case ASCII letter becomes the capital at the same place in the alphabet, and every other character is kept; so the result is never a lower-case ASCII letter, and is whitespace or a space exactly when the input is |
| PlateText.Upper | nesm-LAPTOP-0RFHURIK.py:102 | upper-casing, ASCII letters only, maps the text character by character, keeping its length |
| PlateText.StripLeft | nesm-LAPTOP-0RFHURIK.py:102 | computes `lstrip()`; its contract is `StripLeftSpec` |
| PlateText.StripRight | nesm-LAPTOP-0RFHURIK.py:102 | computes `rstrip()`; its contract is `StripRightSpec` |
| PlateText.Strip | nesm-LAPTOP-0RFHURIK.py:102 | computes `strip()` as `rstrip()` after `lstrip()`; see `StripLeftSpec` and `StripRightSpec` |
| PlateText.RemoveSpaces | nesm-LAPTOP-0RFHURIK.py:102 | computes `replace(" ", "")`; its contract is `RemoveSpacesSpec` with `RemoveSpacesConcat` |
| PlateText.Normalize | nesm-LAPTOP-0RFHURIK.py:102 | computes `strip().upper().replace(" ", "")`; its contract is `NormalizeShape` with `NormalizeReordered` |
| PlateText.StripLeftSpec | nesm-LAPTOP-0RFHURIK.py:102 | `lstrip()` returns the suffix that follows a run of whitespace and does not itself start with whitespace |
| PlateText.StripRightSpec | nesm-LAPTOP-0RFHURIK.py:102 | `rstrip()` returns the prefix that precedes a run of whitespace and does not itself end with whitespace |
| PlateText.RemoveSpacesSpec | nesm-LAPTOP-0RFHURIK.py:102 | `replace(" ", "")` leaves no space, keeps every other character as many times as it occurred, and changes nothing in a text without spaces |
| PlateText.NormalizeShape | nesm-LAPTOP-0RFHURIK.py:102 | the normalised text holds no space and no lower-case ASCII letter |
| PlateText.FirstFit | nesm-LAPTOP-0RFHURIK.py:30 | the combination of repetition counts returned fits at the index, and every combination a backtracking engine tries before it fails there |
| PlateText.MatchAt | nesm-LAPTOP-0RFHURIK.py:30 | a match found at index i ends inside the string |
| PlateText.CleanText | nesm-LAPTOP-0RFHURIK.py:101-104 | computes `clean_text`; its contract is `CleanTextNoneIff`, `CleanTextIsLeftmostLongest`, `LeftmostLongestIsCleanText` and `CleanTextResultIsPlate` |
| PlateText.FirstPlate | nesm-LAPTOP-0RFHURIK.py:103-104 | computes `re.findall(...)[0]`, or None when there is no match; its contract is `FirstPlateIsLeftmostLongest` |
| PlateText.FindMatch | nesm-LAPTOP-0RFHURIK.py:103 | a reported match starts at or after the scan's starting index, and the engine matches there with the reported length |
| PlateText.NoMatchBefore | nesm-LAPTOP-0RFHURIK.py:103 | no index that the scan passes over has a match, so the reported match is the leftmost one |
| PlateText.PlateShape | nesm-LAPTOP-0RFHURIK.py:30 | every string matching the pattern has 6 to 10 characters, each an upper-case letter or a digit |
| PlateText.LettersDetermined | nesm-LAPTOP-0RFHURIK.py:30 | two matches at one index with the same number of leading digits have the same number of letters after them |
| PlateText.GreedyIsLongest | nesm-LAPTOP-0RFHURIK.py:30 | the first combination that fits in backtracking order is at least as long as any other that fits |
| PlateText.FitImpliesMatch | nesm-LAPTOP-0RFHURIK.py:30 | any fit of the pattern at an index makes the engine match there, at least as long as that fit |
| PlateText.MatchAtIsLongestPlate | nesm-LAPTOP-0RFHURIK.py:30 | the engine's match at an index is the longest prefix from that index that matches the pattern, and there is none exactly when no such prefix exists |
| PlateText.LeftmostLongestUnique | nesm-LAPTOP-0RFHURIK.py:103 | a string has at most one leftmost-longest plate |
| PlateText.CleanTextNoneIff | nesm-LAPTOP-0RFHURIK.py:101-104 | `clean_text` returns None exactly when no substring of the normalised text matches the pattern |
| PlateText.FirstPlateIsLeftmostLongest | nesm-LAPTOP-0RFHURIK.py:103-104 | `re.findall(...)[0]` is the leftmost-longest plate in the string |
| PlateText.CleanTextIsLeftmostLongest | nesm-LAPTOP-0RFHURIK.py:101-104 | a result of `clean_text` is the leftmost-longest plate in the normalised text |
| PlateText.LeftmostLongestIsCleanText | nesm-LAPTOP-0RFHURIK.py:101-104 | the leftmost-longest plate in the normalised text, when there is one, is what `clean_text` returns |
| PlateText.CleanTextResultIsPlate | nesm-LAPTOP-0RFHURIK.py:101-104 | a result of `clean_text` matches the pattern as a whole and has 6 to 10 upper-case letters and digits |
| PlateText.UpperConcat | nesm-LAPTOP-0RFHURIK.py:102 | upper-casing distributes over concatenation |
| PlateText.RemoveSpacesConcat | nesm-LAPTOP-0RFHURIK.py:102 | removing spaces distributes over concatenation |
| PlateText.UpperStripLeft | nesm-LAPTOP-0RFHURIK.py:102 | upper-casing commutes with stripping leading whitespace |
| PlateText.UpperStripRight | nesm-LAPTOP-0RFHURIK.py:102 | upper-casing commutes with stripping trailing whitespace |
| PlateText.RemoveSpacesStripLeft | nesm-LAPTOP-0RFHURIK.py:102 | removing spaces before or after stripping leading whitespace gives the same string |
| PlateText.RemoveSpacesStripRight | nesm-LAPTOP-0RFHURIK.py:102 | removing spaces before or after stripping trailing whitespace gives the same string |
| PlateText.UpperRemoveSpaces | nesm-LAPTOP-0RFHURIK.py:102 | upper-casing commutes with removing spaces |
| PlateText.NormalizeReordered | nesm-LAPTOP-0RFHURIK.py:102 | `strip().upper().replace(" ", "")` equals removing spaces, then upper-casing, then stripping |
| PlateText.CleanTextIgnoresCaseAndSpaces | nesm-LAPTOP-0RFHURIK.py:101-104 | two texts equal up to case and spaces get the same `clean_text` result |
| PlateText.CleanTextIgnoresInsertedSpace | nesm-LAPTOP-0RFHURIK.py:101-104 | a space inserted anywhere in a text does not change `clean_text` |
| PlateText.UpperKeepsLettersAndDigits | nesm-LAPTOP-0RFHURIK.py:102 | upper-casing leaves a string of upper-case letters and digits unchanged |
| PlateText.NormalizePlate | nesm-LAPTOP-0RFHURIK.py:102 | normalisation leaves a plate unchanged |
| PlateText.FindMatchOfPlate | nesm-LAPTOP-0RFHURIK.py:103 | on a plate, the engine's first match is the whole string |
| PlateText.PlateIsAccepted | nesm-LAPTOP-0RFHURIK.py:101-104 | a text that is already a plate is returned unchanged |
| PlateText.SpacedPlateIsAccepted | nesm-LAPTOP-0RFHURIK.py:101-104 | a text that becomes a plate once spaces are removed and it is upper-cased yields exactly that plate |
| PlateText.SpacedLowerCaseExample | nesm-LAPTOP-0RFHURIK.py:101-104 | `clean_text(" mh 12 ab 1234 ")` is `"MH12AB1234"` |
| Candidate.Min | nesm-LAPTOP-0RFHURIK.py:121-122 | `min` returns an element of the list that no element is below |
| Candidate.Max | nesm-LAPTOP-0RFHURIK.py:123-124 | `max` returns an element of the list that no element is above |
| Candidate.BoundingBox | nesm-LAPTOP-0RFHURIK.py:119-124 | the box has non-negative width and height, contains every corner, and each of its four edges passes through a corner |
| Candidate.BoundingBoxIsSmallest | nesm-LAPTOP-0RFHURIK.py:119-124 | every box that contains all the corners contains the returned box |
| Candidate.Survives | nesm-LAPTOP-0RFHURIK.py:114-133 | whether the scan returns an item once it reaches it; its contract is `SelectIsFirstSurvivor` and `SelectedIsConfidentPlate` |
| Candidate.Select | nesm-LAPTOP-0RFHURIK.py:113-134 | the scan over the OCR items as a function; its contract is `SelectIsFirstSurvivor` |
| Candidate.SelectFrame | nesm-LAPTOP-0RFHURIK.py:106-137 | no detection when the OCR call raises, else the scan; `DetectPlate` is proved equal to it |
| Candidate.SelectIsFirstSurvivor | nesm-LAPTOP-0RFHURIK.py:113-134 | the scan returns nothing exactly when no item passes every check, and otherwise returns the plate and box of the first item in order that does, whatever later items hold |
| Candidate.SelectedIsConfidentPlate | nesm-LAPTOP-0RFHURIK.py:114-117 | a returned plate matches the pattern and comes from an item of confidence at least 0.6 whose text `clean_text` maps to it |
| Candidate.DetectPlate | nesm-LAPTOP-0RFHURIK.py:106-137 | the loop returns a plate exactly when it returns a box, returns nothing when OCR raises, and its result is the scan function's result |
| Reconciliation.Reconcile | nesm-LAPTOP-0RFHURIK.py:190-276 | an IN row leads to `log_exit`, no IN row to `log_entry`, and a failed query to no transaction; any transaction names the detected plate; a notification is posted exactly when `log_exit` answered with a record, or `log_entry` answered with neither an exception nor one of `already_in`, `db_locked` and `full` |
| Reconciliation.ExitOutcome | nesm-LAPTOP-0RFHURIK.py:205-248 | the exit branch once `log_exit` has answered; its contract is `ExitRecordNotifications` and `ExitAnswerStatus` |
| Reconciliation.EntryOutcome | nesm-LAPTOP-0RFHURIK.py:250-271 | the entry branch once `log_entry` has answered; its contract is `EntryCatchAllIsSuccess` and `EntryAnswerStatus` |
| Reconciliation.NotifiesExactlyOnSuccess | nesm-LAPTOP-0RFHURIK.py:199-276 | the dashboard is notified exactly when the exit was billed or the entry logged, with at most two posts; every refusal, error or exception only changes the screen |
| Reconciliation.ExitRecordNotifications | nesm-LAPTOP-0RFHURIK.py:205-237 | an exit answered with a record shows the fee and duration, then posts the pending exit for the plate followed by `exit_pending` with the record's amount, duration and times |
| Reconciliation.EntryCatchAllIsSuccess | nesm-LAPTOP-0RFHURIK.py:252-271 | an entry answered with anything other than the three refusals or an exception is shown as logged and posts one `entry_logged` notification |
| Reconciliation.NotificationsNamePlate | nesm-LAPTOP-0RFHURIK.py:227-271 | every notification concerns the detected plate, through its endpoint or its body |
| Reconciliation.ExitAnswerStatus | nesm-LAPTOP-0RFHURIK.py:238-248 | an exit answered `db_locked` shows the lock message, `not_found` the missing-entry message, `db_error` the store error; any other string or value shows the exit failure, and an exception the store exception |
| Reconciliation.EntryAnswerStatus | nesm-LAPTOP-0RFHURIK.py:253-275 | an entry answered `already_in`, `db_locked` or `full` shows its own refusal message, an exception shows the store exception, and so does a failed query |
| Detector.GateStepSpec | nesm-LAPTOP-0RFHURIK.py:176-184 | a frame is admitted exactly when detection is armed (earlier or by this frame's `'c'`), there is a candidate, and it differs from the last plate or arrives more than 5 seconds after it; an admission records plate and time and disarms, and a rejection keeps them |
| Detector.Admits | nesm-LAPTOP-0RFHURIK.py:182 | the debounce test; its contract is `GateStepSpec` |
| Detector.GateStep | nesm-LAPTOP-0RFHURIK.py:176-184 | one frame's effect on the gate; its contract is `GateStepSpec` |
| Detector.After | nesm-LAPTOP-0RFHURIK.py:172-278 | the gate after a sequence of frames; its contracts are `AfterStep`, `BeforeFirstAdmission` and `QuietAfterAdmission` |
| Detector.AfterStep | nesm-LAPTOP-0RFHURIK.py:172-278 | each frame of a trace moves the gate by one `GateStep` |
| Detector.FirstPlateAdmitted | nesm-LAPTOP-0RFHURIK.py:176-184 | while no plate has been recorded, a candidate in a frame armed earlier or by its own key press is always admitted |
| Detector.BeforeFirstAdmission | nesm-LAPTOP-0RFHURIK.py:147-184 | from start-up until the first admission, no plate is recorded and detection is armed exactly when `'c'` was pressed on an earlier frame |
| Detector.FirstCandidateAfterPressAdmitted | nesm-LAPTOP-0RFHURIK.py:147-184 | from start-up, the first candidate at or after a press of `'c'` is admitted, even when the press came on an earlier frame without a candidate |
| Detector.Scan | nesm-LAPTOP-0RFHURIK.py:181-182 | the candidate of a frame is the plate of the scan's first surviving item, if there is one |
| Detector.QuietAfterAdmission | nesm-LAPTOP-0RFHURIK.py:182-184 | after an admission, frames that are not admitted keep the recorded plate and time, and detection stays disarmed until `'c'` is pressed |
| Detector.NoRepeatWithinCooldown | nesm-LAPTOP-0RFHURIK.py:182-184 | the same plate admitted twice with no admission in between is separated by more than the cooldown |
| Detector.OnePressOneAdmission | nesm-LAPTOP-0RFHURIK.py:176-278 | between two admissions the operator pressed `'c'` again, so each press admits at most one candidate |
| Detector.Terminal.constructor | nesm-LAPTOP-0RFHURIK.py:147-151 | the loop starts with no last plate, time 0, detection disarmed and the prompt on screen |
| Detector.Terminal.Tick | nesm-LAPTOP-0RFHURIK.py:172-278 | one pass of the loop leaves the gate state as `GateStep` prescribes; on admission, the status, ledger transaction and notifications are those of `Reconcile` for the frame's plate; otherwise nothing is called, nothing is posted and the status is unchanged |

## Left out

- The camera, resizing, drawing, the window and `cv2.waitKey` are not modelled. The masked key code and the time are inputs to `Tick`.
- The image work before OCR (grey-scale, bilateral filter) and EasyOCR itself are not modelled. What the OCR call returns or raises is the input `OcrOutcome`.
- The crop-and-save work for a candidate is not modelled: `os.makedirs`, the frame slice, `cv2.imwrite` and the log line. A boolean per item says whether that work raised, and the model keeps only that.
- The SQLite query for an `IN` row is not modelled. Its answer (a row, no row, an exception) is the input `Query`.
- `log_entry` and `log_exit` are not modelled. They live in `db_manager`, which is not part of this model, and their answers are inputs. Capacity, fees and the ledger's own invariants are therefore not modelled either.
- HTTP and Socket.IO are not modelled. `send_api_request` catches every failure, so the model records which posts are made and in what order, not whether they arrive.
- Floating-point numbers (confidence, time) are modelled as reals, so rounding is not modelled.
- The box coordinates are modelled as integers, so the `int()` truncation of non-integer corner coordinates is not modelled.
- PlateText.UpperChar: maps only the ASCII letters a-z and keeps every other character. Python's `str.upper()` also maps other letters, some of them to ASCII capitals (`'ſ'` to `'S'`, `'ı'` to `'I'`, `'ß'` to `"SS"`). On such input `clean_text` can return a plate that the model does not. The model relies on the reader built on line 29 using EasyOCR's English character set, which has no lower-case letters outside ASCII.
- PlateText.Upper: keeps the length of the text, which Python's `upper()` does not do for letters such as `'ß'`. The reason is the one given for `PlateText.UpperChar`.
- Detector.Terminal.Tick: assumes that the `datetime.now()` calls on lines 188 and 270 succeed. Line 5 binds `datetime` to the module, which has no `now`. The calls work only if `from db_manager import *` on line 9 rebinds `datetime` to the class, and db_manager is not part of this model. If it does not, line 188 raises outside any handler after the gate has been updated (lines 183-184), and the loop ends. Line 270 would then turn a logged entry into the store-exception status, without a notification.
- An exit record is modelled with all four fields. A non-empty dict lacking one of them would raise `KeyError` partway through the record branch, and that path is not modelled. An empty dict counts as "any other value", as the code's `if info:` test makes it.
- The status message is modelled as one constructor per message, so its exact wording and emoji are not modelled. The interim message of line 201 is always overwritten before it is shown, so it is not modelled either.
- Logging, the `'q'` key that ends the loop, the end of the camera stream, and the unused threading and queue imports are not modelled.
