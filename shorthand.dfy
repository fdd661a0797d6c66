/**
  The shorthand grammar of `Controls.get_short`: the first character picks the
  snapshot, the second the domain, and characters 3 to 5 the mouse field.
 */
module Shorthand {
  import opened InputState

  datatype Slot = Current | Previous
  datatype Field = Keyboard | Pressed | Position

  /** What a shorthand string names. */
  datatype Selector = Selector(slot: Slot, field: Field)

  /** Python's `s[i:j]` for `0 <= i <= j`: both ends clipped to the string. */
  function Slice(s: string, i: nat, j: nat): (r: string)
    requires i <= j
    ensures |r| == (if |s| <= i then 0 else if |s| < j then |s| - i else j - i)
    ensures forall k :: 0 <= k < |r| ==> r[k] == s[i + k]
  {
    if |s| <= i then [] else s[i..if |s| < j then |s| else j]
  }

  /** The strings `get_short` can index without raising: it reads `short[0]`, then `short[1]` after a 'c' or a 'p'. */
  predicate Readable(short: string)
  {
    |short| >= 1 && (short[0] == 'c' || short[0] == 'p' ==> |short| >= 2)
  }

  /** The documented spelling of each selector. */
  function Spell(sel: Selector): (s: string)
    ensures 2 <= |s| <= 5
  {
    var slot := if sel.slot == Current then "c" else "p";
    match sel.field
    case Keyboard => slot + "k"
    case Pressed => slot + "mpre"
    case Position => slot + "mpos"
  }

  /**
    The shorthand as a flat table of prefixes: a keyboard selector needs its two
    letters, a current-snapshot mouse field and the previous pressed field need
    all five, and "pm" followed by anything other than "pre" is the previous
    position.
   */
  function Parse(short: string): Option<Selector>
  {
    if |short| < 2 then None
    else if short[..2] == "ck" then Some(Selector(Current, Keyboard))
    else if short[..2] == "pk" then Some(Selector(Previous, Keyboard))
    else if Slice(short, 0, 5) == "cmpre" then Some(Selector(Current, Pressed))
    else if Slice(short, 0, 5) == "cmpos" then Some(Selector(Current, Position))
    else if Slice(short, 0, 5) == "pmpre" then Some(Selector(Previous, Pressed))
    else if short[..2] == "pm" && |short| > 2 then Some(Selector(Previous, Position))
    else None
  }

  /** The two leading letters and the five-letter head of a string, character by character. */
  lemma HeadLetters(s: string)
    requires |s| >= 2
    ensures s[..2] == [s[0], s[1]]
    ensures Slice(s, 0, 5) == [s[0], s[1]] + Slice(s, 2, 5)
    ensures Slice(s, 2, 5) == "pre" <==> |s| >= 5 && s[2] == 'p' && s[3] == 'r' && s[4] == 'e'
    ensures Slice(s, 2, 5) == "pos" <==> |s| >= 5 && s[2] == 'p' && s[3] == 'o' && s[4] == 's'
  {
    if |s| >= 5 {
      assert Slice(s, 2, 5) == [s[2], s[3], s[4]];
    }
  }

  /** Every documented spelling, followed by any suffix, selects what it spells ("ck98" is the current keyboard). */
  lemma ParseSpellWithSuffix(sel: Selector, rest: string)
    ensures Parse(Spell(sel) + rest) == Some(sel)
  {
    var w := Spell(sel);
    var s := w + rest;
    assert s[..2] == w[..2];
    if |w| == 5 {
      assert Slice(s, 0, 5) == w;
    }
    HeadLetters(s);
    // one proof obligation per selector
    match sel {
      case Selector(Current, Keyboard) =>
      case Selector(Previous, Keyboard) =>
      case Selector(Current, Pressed) =>
      case Selector(Current, Position) =>
      case Selector(Previous, Pressed) =>
      case Selector(Previous, Position) =>
    }
  }

  /**
    Every accepted string starts with the two letters of its selector and, except
    for a keyboard or the lenient previous-position branch, with its full spelling.
   */
  lemma ParseSound(short: string, sel: Selector)
    requires Parse(short) == Some(sel)
    ensures short[..2] == Spell(sel)[..2]
    ensures sel.field != Keyboard && sel != Selector(Previous, Position) ==> Slice(short, 0, 5) == Spell(sel)
  {
  }

  /** The lenient branch: "pm" followed by at least one character, with characters 3 to 5 other than "pre", selects the previous position. */
  lemma ParsePreviousPositionIff(short: string)
    ensures Parse(short) == Some(Selector(Previous, Position)) <==>
              |short| > 2 && short[..2] == "pm" && Slice(short, 2, 5) != "pre"
  {
    if |short| >= 2 {
      HeadLetters(short);
    }
  }

  /** The current-snapshot branch is strict: a mouse field needs "pre" or "pos" exactly. */
  lemma ParseCurrentMouseStrict(short: string)
    requires |short| >= 2 && short[..2] == "cm"
    ensures Parse(short).Some? <==> Slice(short, 2, 5) == "pre" || Slice(short, 2, 5) == "pos"
  {
    HeadLetters(short);
  }

  /** Trailing characters are ignored, and "pm" with any third character is the previous position. */
  lemma ParseAccepts()
    ensures Parse("ck98") == Some(Selector(Current, Keyboard))
    ensures Parse("pmx") == Some(Selector(Previous, Position))
    ensures Parse("pmposx") == Some(Selector(Previous, Position))
  {
    ParseSpellWithSuffix(Selector(Current, Keyboard), "98");
    assert Spell(Selector(Current, Keyboard)) + "98" == "ck98";
    HeadLetters("pmx");
    HeadLetters("pmposx");
  }

  /** An unknown mouse field on the current snapshot, a bare "pm" and an unknown first letter select nothing. */
  lemma ParseRejects()
    ensures Parse("cmxyz") == None && Parse("pm") == None && Parse("x") == None
  {
    HeadLetters("cmxyz");
    HeadLetters("pm");
  }
}
