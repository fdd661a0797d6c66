# Controls: a double-buffered input snapshot

A model of the `Controls` class of controls.py (a small pygame helper). A
`Controls` object watches a fixed set of key codes. It keeps two snapshot
dictionaries, `current` and `previous`. Each has a mouse dictionary (the
pressed triple and an optional position), a keyboard dictionary (watched code
to pressed state) and the list of events drained by the last update.

- `InputState` (input_state.dfy) holds the value-level rules:
  - how watched keys are normalised (`ord` for a character, an integer kept as is);
  - the scan bounds `min = min(0, codes)` and `max = max(0, codes) + 1`;
  - the initial snapshot;
  - what one poll does to the mouse and to the keyboard, with Python's indexing of the raw key array.
- `Shorthand` (shorthand.dfy) holds the `get_short` grammar as a flat table of prefixes (`Parse`) and the documented spelling of each selector (`Spell`).
- `Controls` (controls.dfy) is the class:
  - the snapshot dictionaries are heap objects;
  - `dict.copy()` is shallow, so `current` and `previous` share one mouse dictionary and one keyboard dictionary;
  - the constructor fills the keyboard and the bounds in one loop;
  - `Update` archives `current` and polls into it;
  - `GetShort` is the nested dispatch of `get_short`, proved equal to the flat grammar.

The backend is not called. Its five answers (drained events, focus flag,
button triple, cursor position, raw key array) arrive as one `Poll` value
passed to `Update`.

Where the module's documentation (controls.py:1-68) and the code differ, the
model follows the code:
- `previous` is a shallow copy that shares mouse and keyboard with `current` (controls.py:132), not the copy of the prior `current` that controls.py:41 describes (see Findings).
- The table at controls.py:61-67 lists `"pmpos"` for the previous position. The code (controls.py:162) takes `"pm"` followed by at least one character, as long as characters 3 to 5 are not `"pre"`.
- A shorthand that does not begin with a table entry, nor with `"pm"` and one more character, falls through every branch of `get_short` and returns `None`. Characters after an entry are ignored, so `"ck98"` returns the whole current keyboard, the misuse controls.py:58-59 warns against.
- The documentation gives the keyboard and the pressed triple as `bool` values (controls.py:12, controls.py:20). The code starts them at `0` and `(0, 0, 0)`, which equal `False` and `(False, False, False)` in Python. The model uses booleans.
- Python's `get_short` returns `None` both for a shorthand it does not recognise and for `"cmpos"` or `"pmpos"` when no position is stored. `GetShort` keeps these apart: the first gives `None`, the second `Some(PositionValue(None))`.

## Model

| member | source | states |
|---|---|---|
| InputState.Normalise | controls.py:109 | the code tuple has one entry per given key, in order: `ord` of a character, the integer itself otherwise |
| InputState.UnpressedKeys | controls.py:109-124 | the initial keyboard's key set is exactly the set of normalised codes (duplicates collapse) and every entry is unpressed |
| InputState.CharsAndCodesAgree | controls.py:28-30 | for every watch list, replacing each character by its key index gives the same codes |
| InputState.WasdMatchesCodes | controls.py:28-30 | `"wasd"` and `(97, 100, 115, 119)` build the same keyboard, `{97, 100, 115, 119}` all unpressed |
| InputState.LowHighBound | controls.py:115-126 | the scan bounds are min(0, codes) and max(0, codes): both bound every code and each is 0 or a watched code, so every code lies in `[min, max)` |
| InputState.ScanStep | controls.py:118-124 | one pass of the constructor's loop moves the bounds as the `if`/`elif` does and adds the code, unpressed, to the keyboard |
| InputState.MouseAfter | controls.py:136-141 | after an update the position is present exactly when the window is focused; focused, the mouse is the backend's triple and pair; unfocused, it is `(0, 0, 0)` |
| InputState.UnfocusedIgnoresBackendMouse | controls.py:139-141 | unfocused, the mouse is reset whatever buttons and position the backend reports |
| InputState.RefreshStep | controls.py:145-147 | each step of the scan writes `raw[i]` for a watched code `i` and leaves the keyboard alone otherwise |
| InputState.RefreshReadsWatchedCodes | controls.py:143-147 | after the scan over `[min, max)` the keyboard maps exactly the watched codes, each to its raw state: its key set is unchanged and an unwatched code never appears, whatever `raw` reports |
| InputState.ArchivedIsPriorIff | controls.py:132 | the shallow archive equals the prior snapshot exactly when the poll changed neither mouse nor keyboard |
| InputState.ShallowArchiveLosesPress | controls.py:132-141 | a left press followed by an unfocused update leaves `previous` reporting no press although the archived snapshot had one |
| Shorthand.ParseSpellWithSuffix | controls.py:149-165 | each documented shorthand, followed by any characters, selects what it spells (`"ck98"` is the current keyboard) |
| Shorthand.ParseSound | controls.py:149-165 | an accepted shorthand starts with its selector's two letters, and with the full five letters unless it selects a keyboard or the lenient previous position |
| Shorthand.ParsePreviousPositionIff | controls.py:158-163 | `"pm"` selects the previous position exactly when at least one character follows and characters 3 to 5 are not `"pre"` |
| Shorthand.ParseCurrentMouseStrict | controls.py:150-155 | after `"cm"` only `"pre"` and `"pos"` select anything |
| Shorthand.ParseAccepts | controls.py:55-59 | `"ck98"` is the current keyboard; `"pmx"` and `"pmposx"` are the previous position |
| Shorthand.ParseRejects | controls.py:149-165 | `"cmxyz"`, `"pm"` and `"x"` select nothing |
| Controls.Controls.constructor | controls.py:106-129 | codes normalised; keyboard has one unpressed entry per distinct code; every code lies in `[min, max)`; `current` and `previous` are distinct dictionaries holding the same mouse and keyboard dictionaries and equal to the initial snapshot (no press, no position, no events) |
| Controls.Controls.ScanKeyboard | controls.py:143-147 | the loop over `range(min, max)` leaves the current keyboard equal to the refreshed map and keeps its key set |
| Controls.Controls.Capture | controls.py:134-147 | `current` becomes the polled snapshot: the backend's events, the mouse rule, the refreshed keyboard |
| Controls.Controls.Update | controls.py:131-147 | `previous` is a fresh dictionary with the old current events, sharing mouse and keyboard with `current`, so its mouse and keyboard equal the new ones; `current` is the polled snapshot; the invariant and the sharing are kept |
| Controls.Controls.UpdateDeepCopy | controls.py:41 | corrected update: `previous` equals the whole prior `current`, and `current` is the polled snapshot |
| Controls.Controls.GetShort | controls.py:149-165 | the nested dispatch returns nothing exactly when the flat grammar rejects the shorthand, and otherwise the field it selects, the keyboard by reference; it changes no state |

## Left out

- The manual test harness `__Testings` (controls.py:71-103, controls.py:167-168): it opens a window, draws text and loops on a timer. Its call `Controls("adsw")` does not match the constructor's signature. `Controls.SharedMouseScenario` is a client written in its place.
- The pygame calls (`event.get`, `mouse.get_focused`, `mouse.get_pressed`, `mouse.get_pos`, `key.get_pressed`) are foreign library calls. Their answers are the fields of the `Poll` argument of `Update`. The `pygame` constructor argument stored in `self.pygame` is therefore not modelled.
- Event records are opaque: the type parameter `E`, compared only by equality.
- Constructor entries that are neither a one-character string nor an integer are not modelled. `ord` raises on longer strings; other values would be kept as they are.
- The constructor's loop updates local bounds that are stored in `min` and `max` after the loop. The loop keeps the source's order, before the two snapshot copies are made, and a Dafny constructor may not read its own fields until every field, the snapshots included, has been assigned. The stored values are the same.
- Controls.Controls.Update: requires every watched code to be a valid Python index into the raw key array (negative codes count from the end, as modelled by `PyIndex`). The IndexError raised otherwise is not modelled.
- Controls.Controls.GetShort: requires a non-empty shorthand that has a second character when the first is `c` or `p`. The IndexError raised otherwise is not modelled.

## Findings

| source | as written | input that shows it | evidently intended | confidence | as-written member | corrected member |
|---|---|---|---|---|---|---|
| controls.py:132 | `previous = current.copy()` is shallow, so `previous` shares the mouse and keyboard dictionaries that the rest of `update` overwrites | a focused update with the left button down, then an unfocused update: `previous["mouse"]["pressed"]` is `(0, 0, 0)`, not the press | `previous` is a copy of the prior `current` (controls.py:41) | high; not executed | InputState.ShallowArchiveLosesPress | Controls.Controls.UpdateDeepCopy |
