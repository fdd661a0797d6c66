/**
  The `Controls` class of controls.py. Its snapshots are dictionaries whose
  "mouse" and "keyboard" entries are themselves dictionaries; `dict.copy()` is
  shallow, so those nested dictionaries are objects here, shared by reference
  between `current` and `previous`.
 */
module Controls {
  import opened InputState
  import opened Shorthand

  /** The `{"pressed": ..., "position": ...}` dictionary. */
  class MouseDict {
    var pressed: Buttons
    var position: Option<Point>

    constructor (pressed: Buttons, position: Option<Point>)
      ensures this.pressed == pressed && this.position == position
    {
      this.pressed := pressed;
      this.position := position;
    }

    function Value(): MouseState
      reads this
    {
      MouseState(pressed, position)
    }
  }

  /** The keyboard dictionary from key code to pressed state. */
  class KeyboardDict {
    var states: map<int, bool>

    constructor (states: map<int, bool>)
      ensures this.states == states
    {
      this.states := states;
    }
  }

  /**
    One snapshot dictionary. Its "mouse" and "keyboard" entries are never
    rebound, only mutated, so they are constant references; "events" is
    rebound on every update.
   */
  class SnapshotDict<E> {
    const mouse: MouseDict
    const keyboard: KeyboardDict
    var events: seq<E>

    constructor (mouse: MouseDict, keyboard: KeyboardDict, events: seq<E>)
      ensures this.mouse == mouse && this.keyboard == keyboard && this.events == events
    {
      this.mouse := mouse;
      this.keyboard := keyboard;
      this.events := events;
    }

    function Value(): Snapshot<E>
      reads this, mouse, keyboard
    {
      Snapshot(mouse.Value(), keyboard.states, events)
    }
  }

  /** What `get_short` hands back: the keyboard dictionary itself, or the stored pressed triple or position. */
  datatype Selected = KeyboardRef(keyboard: KeyboardDict) | PressedValue(pressed: Buttons) | PositionValue(position: Option<Point>)

  class Controls<E> {
    /** The normalised key codes, in the order given. */
    const indices: seq<int>
    /** The scan range `[min, max)` of `update`. */
    var min: int
    var max: int
    var current: SnapshotDict<E>
    var previous: SnapshotDict<E>

    /** The object invariant: two snapshot dictionaries, the scan range of the codes, and one keyboard entry per code. */
    ghost predicate Valid()
      reads this, current.keyboard
    {
      && current != previous
      && min == Low(indices) && max == High(indices) + 1
      && current.keyboard.states.Keys == CodeSet(indices)
    }

    /** The effect of the shallow copies: both snapshots hold the same mouse and keyboard dictionaries. */
    predicate Shared()
      reads this
    {
      current.mouse == previous.mouse && current.keyboard == previous.keyboard
    }

    function Current(): Snapshot<E>
      reads this, current, current.mouse, current.keyboard
    {
      current.Value()
    }

    function Previous(): Snapshot<E>
      reads this, previous, previous.mouse, previous.keyboard
    {
      previous.Value()
    }

    /**
      Normalises the watched keys, fills the keyboard dictionary and the scan
      bounds in one pass, and makes `current` and `previous` two shallow copies
      of one template. The loop runs on locals stored in `min` and `max`
      afterwards: the copies are made after the loop, and until they are
      assigned the constructor may not read its own fields.
     */
    constructor (keyboardIndices: seq<KeyIndex>)
      ensures Valid() && Shared()
      ensures indices == Normalise(keyboardIndices)
      ensures forall c :: c in indices ==> min <= c < max
      ensures Current() == Initial(indices) && Previous() == Current()
      ensures fresh(current) && fresh(previous) && fresh(current.mouse) && fresh(current.keyboard)
    {
      var codes := Normalise(keyboardIndices);
      var mouse := new MouseDict(Released, None);
      var keyboard := new KeyboardDict(map[]);
      var lo, hi := 0, 0;
      for k := 0 to |codes|
        modifies keyboard
        invariant lo == Low(codes[..k]) && hi == High(codes[..k])
        invariant lo <= 0 <= hi
        invariant keyboard.states == Unpressed(codes[..k])
      {
        var i := codes[k];
        assert codes[..k + 1] == codes[..k] + [i];
        ScanStep(codes[..k], i);
        if i > hi {
          hi := i;
        } else if i < lo {
          lo := i;
        }
        keyboard.states := keyboard.states[i := false];
      }
      assert codes[..|codes|] == codes;
      LowHighBound(codes);
      indices := codes;
      min := lo;
      max := hi + 1;
      ghost var initial: Snapshot<E> := Initial(codes);
      assert mouse.Value() == initial.mouse && keyboard.states == initial.keyboard;
      var first := new SnapshotDict(mouse, keyboard, []);
      var second := new SnapshotDict(mouse, keyboard, []);
      assert first.Value() == initial && second.Value() == initial;
      current, previous := first, second;
    }

    /**
      Writes one poll of the backend into `current`: the events, the mouse (or
      its reset when unfocused) and the raw state of every watched code in the
      scan range.
     */
    method Capture(poll: Poll<E>)
      requires Valid()
      requires Indexable(indices, poll.raw)
      modifies current, current.mouse, current.keyboard
      ensures Valid()
      ensures Current() == Polled(old(Current()), poll, indices, min, max)
    {
      current.events := poll.events;
      if poll.focused {
        current.mouse.pressed := poll.pressed;
        current.mouse.position := Some(poll.position);
      } else {
        current.mouse.pressed := Released;
        current.mouse.position := None;
      }
      ScanKeyboard(poll.raw);
    }

    /** The loop over `range(min, max)` that copies the raw state of each watched code into the current keyboard. */
    method ScanKeyboard(raw: seq<bool>)
      requires Valid()
      requires Indexable(indices, raw)
      modifies current.keyboard
      ensures Valid()
      ensures current.keyboard.states == Refresh(old(current.keyboard.states), indices, min, max, raw)
    {
      LowHighBound(indices);
      ghost var before := current.keyboard.states;
      RefreshNothing(before, indices, min, raw);
      for i := min to max
        invariant current.keyboard.states == Refresh(before, indices, min, i, raw)
      {
        RefreshStep(before, indices, min, i, raw);
        if i in indices {
          current.keyboard.states := current.keyboard.states[i := PyIndex(raw, i)];
        }
      }
      RefreshReadsWatchedCodes(before, indices, raw);
    }

    /**
      `update`: `previous` becomes a shallow copy of `current` (a new snapshot
      dictionary holding current's events and sharing its mouse and keyboard
      dictionaries), then the poll is written into `current`. The writes to the
      shared dictionaries show in `previous` too: only the events differ.
     */
    method Update(poll: Poll<E>)
      requires Valid()
      requires Indexable(indices, poll.raw)
      modifies this`previous, current, current.mouse, current.keyboard
      ensures Valid() && Shared()
      ensures current == old(current) && fresh(previous)
      ensures Current() == Polled(old(Current()), poll, indices, min, max)
      ensures Previous() == Archived(old(Current()), Current())
    {
      previous := new SnapshotDict(current.mouse, current.keyboard, current.events);
      Capture(poll);
    }

    /**
      The update the documentation describes: `previous` becomes a copy of
      `current` with its own mouse and keyboard dictionaries, so it keeps the
      prior snapshot whole.
     */
    method UpdateDeepCopy(poll: Poll<E>)
      requires Valid()
      requires Indexable(indices, poll.raw)
      modifies this`previous, current, current.mouse, current.keyboard
      ensures Valid()
      ensures current == old(current) && fresh(previous) && fresh(previous.mouse) && fresh(previous.keyboard)
      ensures Current() == Polled(old(Current()), poll, indices, min, max)
      ensures Previous() == old(Current())
    {
      var mouse := new MouseDict(current.mouse.pressed, current.mouse.position);
      var keyboard := new KeyboardDict(current.keyboard.states);
      previous := new SnapshotDict(mouse, keyboard, current.events);
      Capture(poll);
    }

    /** The field a selector names, the keyboard by reference. */
    function Resolve(sel: Selector): Selected
      reads this, current, previous, current.mouse, previous.mouse
    {
      var snapshot := if sel.slot.Current? then current else previous;
      match sel.field
      case Keyboard => KeyboardRef(snapshot.keyboard)
      case Pressed => PressedValue(snapshot.mouse.pressed)
      case Position => PositionValue(snapshot.mouse.position)
    }

    /**
      `get_short`: the nested dispatch on the first letter, the second letter and
      characters 3 to 5. It agrees with the flat grammar `Parse`, and reads the
      object without changing it.
     */
    function GetShort(short: string): (r: Option<Selected>)
      reads this, current, previous, current.mouse, previous.mouse
      requires Readable(short)
      ensures r.None? <==> Parse(short).None?
      ensures r.Some? ==> r.value == Resolve(Parse(short).value)
    {
      if short[0] == 'c' then
        HeadLetters(short);
        if short[1] == 'm' then
          if Slice(short, 2, 5) == "pre" then Some(PressedValue(current.mouse.pressed))
          else if Slice(short, 2, 5) == "pos" then Some(PositionValue(current.mouse.position))
          else None
        else if short[1] == 'k' then Some(KeyboardRef(current.keyboard))
        else None
      else if short[0] == 'p' then
        HeadLetters(short);
        if short[1] == 'm' then
          if Slice(short, 2, 5) == "pre" then Some(PressedValue(previous.mouse.pressed))
          else if Slice(short, 2, 5) != "" then Some(PositionValue(previous.mouse.position))
          else None
        else if short[1] == 'k' then Some(KeyboardRef(previous.keyboard))
        else None
      else None
    }
  }

  /**
    Watching "ad", a focused update with the left button down, then an
    unfocused one: `previous` shows the reset mouse of the second update, not
    the press it was meant to archive, because the mouse dictionary is shared.
   */
  method SharedMouseScenario()
  {
    var c := new Controls<int>([Char('a'), Char('d')]);
    assert c.indices == [97, 100];
    var raw := seq(101, i => i == 97);
    c.Update(Poll([], true, (true, false, false), (10, 20), raw));
    var pressedBefore := c.current.mouse.pressed;
    assert pressedBefore == (true, false, false);
    c.Update(Poll([], false, (true, false, false), (10, 20), raw));
    assert c.GetShort("cmpre") == Some(PressedValue(Released));
    assert c.GetShort("pmpre") == Some(PressedValue(Released)) != Some(PressedValue(pressedBefore));
  }
}
