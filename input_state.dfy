/**
  Values behind the `Controls` snapshots of controls.py: the normalisation of the
  watched keys, the scan range computed from them, the snapshot records and the
  value-level effect of one poll of the input backend.
 */
module InputState {

  datatype Option<+T> = None | Some(value: T)

  /** One entry of the iterable given to the constructor: a one-character string or an integer key index. */
  datatype KeyIndex = Char(c: char) | Code(n: int)

  /** The three mouse buttons (left, middle, right). */
  type Buttons = (bool, bool, bool)

  /** A cursor position on the surface. */
  type Point = (int, int)

  /** `(0, 0, 0)`: no button pressed. */
  const Released: Buttons := (false, false, false)

  /** Python's `ord` on a character, the identity on an integer. */
  function Ord(k: KeyIndex): int
  {
    match k
    case Char(c) => c as int
    case Code(n) => n
  }

  /** The tuple of key codes the constructor keeps, in the order given. */
  function Normalise(entries: seq<KeyIndex>): (codes: seq<int>)
    ensures |codes| == |entries|
    ensures forall j :: 0 <= j < |entries| && entries[j].Char? ==> codes[j] == entries[j].c as int
    ensures forall j :: 0 <= j < |entries| && entries[j].Code? ==> codes[j] == entries[j].n
  {
    if entries == [] then [] else [Ord(entries[0])] + Normalise(entries[1..])
  }

  /** The watched codes as a set. */
  function CodeSet(codes: seq<int>): set<int>
  {
    set c | c in codes
  }

  /** The lower scan bound: the smallest of 0 and the codes, taken left to right. */
  function Low(codes: seq<int>): int
  {
    if codes == [] then 0
    else
      var rest := Low(codes[..|codes| - 1]);
      var c := codes[|codes| - 1];
      if c < rest then c else rest
  }

  /** The highest of 0 and the codes; the exclusive upper scan bound is one more. */
  function High(codes: seq<int>): int
  {
    if codes == [] then 0
    else
      var rest := High(codes[..|codes| - 1]);
      var c := codes[|codes| - 1];
      if c > rest then c else rest
  }

  /** Low and High are min(0, codes) and max(0, codes): they bound every code and are attained. */
  lemma {:induction false} LowHighBound(codes: seq<int>)
    ensures Low(codes) <= 0 <= High(codes)
    ensures forall c :: c in codes ==> Low(codes) <= c <= High(codes)
    ensures Low(codes) == 0 || Low(codes) in codes
    ensures High(codes) == 0 || High(codes) in codes
  {
    if codes != [] {
      var init := codes[..|codes| - 1];
      LowHighBound(init);
      assert codes == init + [codes[|codes| - 1]];
    }
  }

  /** The initial keyboard dictionary: one entry per distinct code, all unpressed. */
  function Unpressed(codes: seq<int>): map<int, bool>
  {
    map c | c in codes :: false
  }

  /** One more code in the scan: the bounds and the keyboard of the constructor's loop after one step. */
  lemma ScanStep(codes: seq<int>, c: int)
    ensures Low(codes + [c]) == (if c < Low(codes) then c else Low(codes))
    ensures High(codes + [c]) == (if c > High(codes) then c else High(codes))
    ensures Unpressed(codes + [c]) == Unpressed(codes)[c := false]
  {
    assert (codes + [c])[..|codes|] == codes;
  }

  /** The initial keyboard holds exactly the normalised codes, duplicates collapsed, each unpressed. */
  lemma UnpressedKeys(entries: seq<KeyIndex>)
    ensures Unpressed(Normalise(entries)).Keys == set e | e in entries :: Ord(e)
    ensures forall c :: c in Unpressed(Normalise(entries)) ==> !Unpressed(Normalise(entries))[c]
  {
    var codes := Normalise(entries);
    forall c | c in codes ensures exists e :: e in entries && Ord(e) == c {
      var j :| 0 <= j < |codes| && codes[j] == c;
      assert entries[j] in entries && Ord(entries[j]) == c;
    }
    forall e | e in entries ensures Ord(e) in codes {
      var j :| 0 <= j < |entries| && entries[j] == e;
      assert codes[j] == Ord(e);
    }
  }

  /** Watching characters and watching their key indices give the same codes, for any watch list. */
  lemma CharsAndCodesAgree(entries: seq<KeyIndex>)
    ensures Normalise(entries) == Normalise(seq(|entries|, j requires 0 <= j < |entries| => Code(Ord(entries[j]))))
  {
  }

  /** `Controls("wasd")` and `Controls((97, 100, 115, 119))` build the same keyboard dictionary. */
  lemma WasdMatchesCodes()
    ensures Normalise([Char('w'), Char('a'), Char('s'), Char('d')]) == [119, 97, 115, 100]
    ensures Unpressed(Normalise([Char('w'), Char('a'), Char('s'), Char('d')]))
         == Unpressed(Normalise([Code(97), Code(100), Code(115), Code(119)]))
         == map[97 := false, 100 := false, 115 := false, 119 := false]
  {
    var wasd := Normalise([Char('w'), Char('a'), Char('s'), Char('d')]);
    var codes := Normalise([Code(97), Code(100), Code(115), Code(119)]);
    assert wasd == [119, 97, 115, 100];
    assert codes == [97, 100, 115, 119];
  }

  /** The mouse sub-dictionary of a snapshot. */
  datatype MouseState = MouseState(pressed: Buttons, position: Option<Point>)

  /** One snapshot dictionary: `{"mouse": ..., "keyboard": ..., "events": ...}`. */
  datatype Snapshot<E> = Snapshot(mouse: MouseState, keyboard: map<int, bool>, events: seq<E>)

  /** The snapshot the constructor builds for the watched codes. */
  function Initial<E>(codes: seq<int>): Snapshot<E>
  {
    Snapshot(MouseState(Released, None), Unpressed(codes), [])
  }

  /**
    What the backend answers during one update: the drained events, whether the
    window has mouse focus, the button triple, the cursor position and the raw
    keyboard state (one entry per representable key index).
   */
  datatype Poll<E> = Poll(events: seq<E>, focused: bool, pressed: Buttons, position: Point, raw: seq<bool>)

  /** The mouse after an update: the backend's values when focused, reset otherwise. */
  function MouseAfter<E>(poll: Poll<E>): (m: MouseState)
    ensures m.position.Some? <==> poll.focused
    ensures poll.focused ==> m.pressed == poll.pressed && m.position.value == poll.position
    ensures !poll.focused ==> m.pressed == Released
  {
    if poll.focused then MouseState(poll.pressed, Some(poll.position))
    else MouseState(Released, None)
  }

  /** An unfocused window hides whatever buttons and position the backend reports. */
  lemma UnfocusedIgnoresBackendMouse<E>(p: Poll<E>, q: Poll<E>)
    requires !p.focused && !q.focused
    ensures MouseAfter(p) == MouseAfter(q) == MouseState(Released, None)
  {
  }

  /** Every watched code can be read from `raw` with Python indexing (negative codes count from the end). */
  predicate Indexable(codes: seq<int>, raw: seq<bool>)
  {
    forall c :: c in codes ==> -|raw| <= c < |raw|
  }

  /** Python's `raw[i]`, including negative indices. */
  function PyIndex(raw: seq<bool>, i: int): bool
    requires -|raw| <= i < |raw|
  {
    if i >= 0 then raw[i] else raw[|raw| + i]
  }

  /** The codes the keyboard scan visits and copies: watched and in `[lo, hi)`. */
  function Scanned(watched: seq<int>, lo: int, hi: int): set<int>
  {
    set c | c in watched && lo <= c < hi
  }

  /** The keyboard dictionary after `keyboard[i] = raw[i]` for every scanned code. */
  function Refresh(keyboard: map<int, bool>, watched: seq<int>, lo: int, hi: int, raw: seq<bool>): map<int, bool>
    requires Indexable(watched, raw)
  {
    map c | c in keyboard.Keys + Scanned(watched, lo, hi) ::
      if c in Scanned(watched, lo, hi) then PyIndex(raw, c) else keyboard[c]
  }

  /** An empty scan range leaves the keyboard as it is. */
  lemma RefreshNothing(keyboard: map<int, bool>, watched: seq<int>, lo: int, raw: seq<bool>)
    requires Indexable(watched, raw)
    ensures Refresh(keyboard, watched, lo, lo, raw) == keyboard
  {
  }

  /** Extending the scan by one code writes that code when it is watched, and nothing else. */
  lemma RefreshStep(keyboard: map<int, bool>, watched: seq<int>, lo: int, hi: int, raw: seq<bool>)
    requires lo <= hi
    requires Indexable(watched, raw)
    ensures Refresh(keyboard, watched, lo, hi + 1, raw) ==
              if hi in watched then Refresh(keyboard, watched, lo, hi, raw)[hi := PyIndex(raw, hi)]
              else Refresh(keyboard, watched, lo, hi, raw)
  {
    assert Scanned(watched, lo, hi + 1) ==
             if hi in watched then Scanned(watched, lo, hi) + {hi} else Scanned(watched, lo, hi);
  }

  /**
    On the scan range the constructor computes, the refreshed keyboard holds
    exactly the watched codes, each with its raw state: its key set is
    unchanged and an unwatched code never appears, whatever `raw` reports.
   */
  lemma RefreshReadsWatchedCodes(keyboard: map<int, bool>, watched: seq<int>, raw: seq<bool>)
    requires keyboard.Keys == CodeSet(watched)
    requires Indexable(watched, raw)
    ensures Refresh(keyboard, watched, Low(watched), High(watched) + 1, raw) == map c | c in watched :: PyIndex(raw, c)
  {
    LowHighBound(watched);
    assert Scanned(watched, Low(watched), High(watched) + 1) == CodeSet(watched);
  }

  /** The new `current` snapshot after polling the backend. */
  function Polled<E>(before: Snapshot<E>, poll: Poll<E>, watched: seq<int>, lo: int, hi: int): Snapshot<E>
    requires Indexable(watched, poll.raw)
  {
    Snapshot(MouseAfter(poll), Refresh(before.keyboard, watched, lo, hi, poll.raw), poll.events)
  }

  /**
    The `previous` snapshot left by a shallow `dict.copy()` of `before`: its own
    events list, but the mouse and keyboard dictionaries it shares with the
    snapshot `after` that the poll wrote.
   */
  function Archived<E>(before: Snapshot<E>, after: Snapshot<E>): Snapshot<E>
  {
    Snapshot(after.mouse, after.keyboard, before.events)
  }

  /** The archived snapshot is the prior one exactly when the poll changed neither mouse nor keyboard. */
  lemma ArchivedIsPriorIff<E>(before: Snapshot<E>, after: Snapshot<E>)
    ensures Archived(before, after) == before <==> after.mouse == before.mouse && after.keyboard == before.keyboard
  {
  }

  /**
    A press followed by an unfocused update: the archived snapshot reports no
    button pressed although the snapshot it archived had the left button down.
   */
  lemma ShallowArchiveLosesPress()
    ensures var before: Snapshot<int> := Snapshot(MouseState((true, false, false), Some((10, 20))), map[], []);
            var after := Polled(before, Poll([], false, (true, false, false), (10, 20), []), [], 0, 1);
            Archived(before, after).mouse.pressed == Released && before.mouse.pressed != Released
  {
  }
}
