/** The keyboard interactions that typing a text into an element comes down to. */
module SendKeys {
  import opened Wrappers

  datatype Modifier = Shift | Control | Alternate | Meta

  datatype Key = Plain(name: string) | Modify(modifier: Modifier)

  type KeyTable = nat -> Option<Key>

  /** The key a code unit stands for, if it is not a character; left and right modifiers are one key. */
  function VirtualKeyForKey(unit: nat): Option<Key> {
    match unit
    case 0xE001 => Some(Plain("Cancel"))
    case 0xE002 => Some(Plain("Help"))
    case 0xE003 => Some(Plain("Backspace"))
    case 0xE004 => Some(Plain("Tab"))
    case 0xE005 => Some(Plain("Clear"))
    case 0xE006 => Some(Plain("Return"))
    case 0xE007 => Some(Plain("Enter"))
    case 0xE008 | 0xE050 => Some(Modify(Shift))
    case 0xE009 | 0xE051 => Some(Modify(Control))
    case 0xE00A | 0xE052 => Some(Modify(Alternate))
    case 0xE00B => Some(Plain("Pause"))
    case 0xE00C => Some(Plain("Escape"))
    case 0xE00D => Some(Plain("Space"))
    case 0xE00E | 0xE054 => Some(Plain("PageUp"))
    case 0xE00F | 0xE055 => Some(Plain("PageDown"))
    case 0xE010 | 0xE056 => Some(Plain("End"))
    case 0xE011 | 0xE057 => Some(Plain("Home"))
    case 0xE012 | 0xE058 => Some(Plain("LeftArrow"))
    case 0xE013 | 0xE059 => Some(Plain("UpArrow"))
    case 0xE014 | 0xE05A => Some(Plain("RightArrow"))
    case 0xE015 | 0xE05B => Some(Plain("DownArrow"))
    case 0xE016 | 0xE05C => Some(Plain("Insert"))
    case 0xE017 | 0xE05D => Some(Plain("Delete"))
    case 0xE018 => Some(Plain("Semicolon"))
    case 0xE019 => Some(Plain("Equals"))
    case 0xE01A => Some(Plain("NumberPad0"))
    case 0xE01B => Some(Plain("NumberPad1"))
    case 0xE01C => Some(Plain("NumberPad2"))
    case 0xE01D => Some(Plain("NumberPad3"))
    case 0xE01E => Some(Plain("NumberPad4"))
    case 0xE01F => Some(Plain("NumberPad5"))
    case 0xE020 => Some(Plain("NumberPad6"))
    case 0xE021 => Some(Plain("NumberPad7"))
    case 0xE022 => Some(Plain("NumberPad8"))
    case 0xE023 => Some(Plain("NumberPad9"))
    case 0xE024 => Some(Plain("NumberPadMultiply"))
    case 0xE025 => Some(Plain("NumberPadAdd"))
    case 0xE026 => Some(Plain("NumberPadSeparator"))
    case 0xE027 => Some(Plain("NumberPadSubtract"))
    case 0xE028 => Some(Plain("NumberPadDecimal"))
    case 0xE029 => Some(Plain("NumberPadDivide"))
    case 0xE031 => Some(Plain("Function1"))
    case 0xE032 => Some(Plain("Function2"))
    case 0xE033 => Some(Plain("Function3"))
    case 0xE034 => Some(Plain("Function4"))
    case 0xE035 => Some(Plain("Function5"))
    case 0xE036 => Some(Plain("Function6"))
    case 0xE037 => Some(Plain("Function7"))
    case 0xE038 => Some(Plain("Function8"))
    case 0xE039 => Some(Plain("Function9"))
    case 0xE03A => Some(Plain("Function10"))
    case 0xE03B => Some(Plain("Function11"))
    case 0xE03C => Some(Plain("Function12"))
    case 0xE03D | 0xE053 => Some(Modify(Meta))
    case _ => None
  }

  datatype Kind = KeyPress | KeyRelease | InsertByKey

  datatype Interaction = Interaction(kind: Kind, text: Option<nat>, key: Option<Key>)

  // ----- a keyboard -----

  /** The modifiers down after one interaction; none when a key goes down twice or comes up while it is up. */
  function Play(down: set<Modifier>, a: Interaction): Option<set<Modifier>> {
    if a.kind.InsertByKey? then Some(down)
    else if a.key.None? || a.key.value.Plain? then None
    else
      var m := a.key.value.modifier;
      if a.kind.KeyPress? then (if m in down then None else Some(down + {m}))
      else (if m in down then Some(down - {m}) else None)
  }

  function PlayAll(interactions: seq<Interaction>): Option<set<Modifier>> {
    if interactions == [] then Some({})
    else
      var last := |interactions| - 1;
      var before := PlayAll(interactions[..last]);
      if before.None? then None else Play(before.value, interactions[last])
  }

  lemma PlayOneMore(interactions: seq<Interaction>, a: Interaction)
    requires PlayAll(interactions).Some?
    ensures PlayAll(interactions + [a]) == Play(PlayAll(interactions).value, a)
  {
    assert (interactions + [a])[..|interactions|] == interactions;
  }

  // ----- what typing means -----

  /** How often a modifier is typed. */
  function Presses(keyOf: KeyTable, text: seq<nat>, m: Modifier): nat {
    if text == [] then 0
    else Presses(keyOf, text[..|text| - 1], m) + (if keyOf(text[|text| - 1]) == Some(Modify(m)) then 1 else 0)
  }

  /** Typing a modifier again lets it go: it is down after an odd number of times. */
  function HeldAfter(keyOf: KeyTable, text: seq<nat>): set<Modifier> {
    set m: Modifier | Presses(keyOf, text, m) % 2 == 1
  }

  /** The interaction of one code unit, given the modifiers down before it. */
  function Typed(keyOf: KeyTable, down: set<Modifier>, unit: nat): Interaction {
    match keyOf(unit)
    case None => Interaction(InsertByKey, Some(unit), None)
    case Some(Plain(name)) => Interaction(InsertByKey, None, Some(Plain(name)))
    case Some(Modify(m)) => Interaction(if m in down then KeyRelease else KeyPress, None, Some(Modify(m)))
  }

  function Release(m: Modifier): Interaction { Interaction(KeyRelease, None, Some(Modify(m))) }

  function Toggled(down: set<Modifier>, key: Option<Key>): set<Modifier> {
    if key.None? || key.value.Plain? then down
    else if key.value.modifier in down then down - {key.value.modifier}
    else down + {key.value.modifier}
  }

  lemma HeldAfterOneMore(keyOf: KeyTable, text: seq<nat>, unit: nat)
    ensures HeldAfter(keyOf, text + [unit]) == Toggled(HeldAfter(keyOf, text), keyOf(unit))
  {
    assert (text + [unit])[..|text|] == text;
    var key := keyOf(unit);
    forall m: Modifier ensures m in HeldAfter(keyOf, text + [unit]) <==> m in Toggled(HeldAfter(keyOf, text), key) {
      assert Presses(keyOf, text + [unit], m) == Presses(keyOf, text, m) + if key == Some(Modify(m)) then 1 else 0;
    }
  }

  // ----- what is typed, in order -----

  /** The code units that stand for themselves. */
  function Characters(keyOf: KeyTable, text: seq<nat>): seq<nat> {
    if text == [] then [] else
      var last := |text| - 1;
      Characters(keyOf, text[..last]) + (if keyOf(text[last]).None? then [text[last]] else [])
  }

  /** The keys of the others. */
  function SpecialKeys(keyOf: KeyTable, text: seq<nat>): seq<Key> {
    if text == [] then [] else
      var last := |text| - 1;
      SpecialKeys(keyOf, text[..last]) + (if keyOf(text[last]).Some? then [keyOf(text[last]).value] else [])
  }

  function TextsOf(interactions: seq<Interaction>): seq<nat> {
    if interactions == [] then [] else
      var last := |interactions| - 1;
      TextsOf(interactions[..last]) + (if interactions[last].text.Some? then [interactions[last].text.value] else [])
  }

  function KeysOf(interactions: seq<Interaction>): seq<Key> {
    if interactions == [] then [] else
      var last := |interactions| - 1;
      KeysOf(interactions[..last]) + (if interactions[last].key.Some? then [interactions[last].key.value] else [])
  }

  /** The texts of the interactions are the characters typed, and their keys are the special keys, in order. */
  lemma {:induction false} TypedInOrder(keyOf: KeyTable, text: seq<nat>, interactions: seq<Interaction>)
    requires |interactions| == |text|
    requires forall i :: 0 <= i < |text| ==> interactions[i] == Typed(keyOf, HeldAfter(keyOf, text[..i]), text[i])
    ensures TextsOf(interactions) == Characters(keyOf, text) && KeysOf(interactions) == SpecialKeys(keyOf, text)
  {
    if text != [] {
      var last := |text| - 1;
      forall i | 0 <= i < last
        ensures interactions[..last][i] == Typed(keyOf, HeldAfter(keyOf, text[..last][..i]), text[..last][i])
      {
        assert text[..last][..i] == text[..i];
      }
      TypedInOrder(keyOf, text[..last], interactions[..last]);
    }
  }

  /** The codes of the modifiers, left and right. */
  lemma ModifierCodes(unit: nat)
    ensures VirtualKeyForKey(unit) == Some(Modify(Shift)) <==> unit == 0xE008 || unit == 0xE050
    ensures VirtualKeyForKey(unit) == Some(Modify(Control)) <==> unit == 0xE009 || unit == 0xE051
    ensures VirtualKeyForKey(unit) == Some(Modify(Alternate)) <==> unit == 0xE00A || unit == 0xE052
    ensures VirtualKeyForKey(unit) == Some(Modify(Meta)) <==> unit == 0xE03D || unit == 0xE053
    ensures VirtualKeyForKey(unit).Some? ==> 0xE001 <= unit <= 0xE05D
  {
  }

  /** The key's name is that long and ends in that digit. */
  predicate EndsInDigit(key: Option<Key>, length: nat, digit: nat) {
    key.Some? && key.value.Plain? && |key.value.name| == length > 0 &&
    key.value.name[length - 1] as int == '0' as int + digit
  }

  /** The digits of the number pad come in order, and the keys that it has again are the same keys. */
  lemma PadInOrder(n: nat)
    requires n < 10
    ensures EndsInDigit(VirtualKeyForKey(0xE01A + n), |"NumberPad0"|, n)
    ensures VirtualKeyForKey(0xE00E + n) == VirtualKeyForKey(0xE054 + n)
  {
  }

  /** So do the function keys. */
  lemma FunctionKeysInOrder(n: nat)
    requires 0 < n <= 12
    ensures n < 10 ==> EndsInDigit(VirtualKeyForKey(0xE030 + n), |"Function1"|, n)
    ensures n >= 10 ==> EndsInDigit(VirtualKeyForKey(0xE030 + n), |"Function10"|, n - 10)
  {
  }

  // ----- the mask -----

  function Bit(m: Modifier): bv4 {
    match m case Shift => 1 case Control => 2 case Alternate => 4 case Meta => 8
  }

  function Held(mask: bv4): set<Modifier> { set m: Modifier | mask & Bit(m) != 0 }

  lemma MaskToggles(mask: bv4, m: Modifier)
    ensures Held(mask ^ Bit(m)) == Toggled(Held(mask), Some(Modify(m)))
    ensures (mask ^ Bit(m)) & Bit(m) != 0 <==> m !in Held(mask)
  {
    forall k: Modifier
      ensures (mask ^ Bit(m)) & Bit(k) != 0 <==> if k == m then mask & Bit(k) == 0 else mask & Bit(k) != 0
    {
      MaskBit(mask, m, k);
    }
  }

  lemma MaskBit(mask: bv4, m: Modifier, k: Modifier)
    ensures (mask ^ Bit(m)) & Bit(k) != 0 <==> if k == m then mask & Bit(k) == 0 else mask & Bit(k) != 0
  {
    match m case Shift => case Control => case Alternate => case Meta =>
  }

  /** One code unit: its interaction, and the mask after it. */
  method TypeOne(keyOf: KeyTable, unit: nat, mask: bv4) returns (interaction: Interaction, stickyModifiers: bv4)
    ensures interaction == Typed(keyOf, Held(mask), unit)
    ensures Held(stickyModifiers) == Toggled(Held(mask), keyOf(unit))
    ensures Play(Held(mask), interaction) == Some(Held(stickyModifiers))
  {
    stickyModifiers := mask;
    interaction := Interaction(InsertByKey, None, None);
    var virtualKey := keyOf(unit);
    if virtualKey.Some? {
      interaction := interaction.(key := virtualKey);
      if virtualKey.value.Modify? {
        var modifier := virtualKey.value.modifier;
        MaskToggles(mask, modifier);
        stickyModifiers := stickyModifiers ^ Bit(modifier);
        interaction := interaction.(kind := if stickyModifiers & Bit(modifier) != 0 then KeyPress else KeyRelease);
      }
    } else {
      interaction := interaction.(text := Some(unit));
    }
  }

  /** The interactions of the first characters of a text, and the modifiers they leave down. */
  ghost predicate TypedUpTo(keyOf: KeyTable, text: seq<nat>, n: nat, interactions: seq<Interaction>,
    down: set<Modifier>)
    requires n <= |text|
  {
    && |interactions| == n
    && (forall i :: 0 <= i < n ==> interactions[i] == Typed(keyOf, HeldAfter(keyOf, text[..i]), text[i]))
    && PlayAll(interactions) == Some(down) && down == HeldAfter(keyOf, text[..n])
  }

  lemma TypedOneMore(keyOf: KeyTable, text: seq<nat>, n: nat, interactions: seq<Interaction>, down: set<Modifier>,
    interaction: Interaction)
    requires n < |text| && TypedUpTo(keyOf, text, n, interactions, down)
    requires interaction == Typed(keyOf, down, text[n])
    ensures TypedUpTo(keyOf, text, n + 1, interactions + [interaction], HeldAfter(keyOf, text[..n + 1]))
  {
    assert text[..n + 1] == text[..n] + [text[n]];
    HeldAfterOneMore(keyOf, text[..n], text[n]);
    PlayOneMore(interactions, interaction);
  }

  /** The interactions of the text itself, and the mask of the modifiers left down. */
  method TypeText(keyOf: KeyTable, text: seq<nat>) returns (interactions: seq<Interaction>, stickyModifiers: bv4)
    ensures |interactions| == |text|
    ensures forall i :: 0 <= i < |text| ==> interactions[i] == Typed(keyOf, HeldAfter(keyOf, text[..i]), text[i])
    ensures TextsOf(interactions) == Characters(keyOf, text) && KeysOf(interactions) == SpecialKeys(keyOf, text)
    ensures PlayAll(interactions) == Some(HeldAfter(keyOf, text)) && Held(stickyModifiers) == HeldAfter(keyOf, text)
  {
    stickyModifiers := 0;
    interactions := [];
    assert HeldAfter(keyOf, text[..0]) == Held(0) == {};
    for i := 0 to |text|
      invariant TypedUpTo(keyOf, text, i, interactions, Held(stickyModifiers))
    {
      ghost var down := Held(stickyModifiers);
      var interaction;
      interaction, stickyModifiers := TypeOne(keyOf, text[i], stickyModifiers);
      TypedOneMore(keyOf, text, i, interactions, down, interaction);
      interactions := interactions + [interaction];
      assert Held(stickyModifiers) == HeldAfter(keyOf, text[..i + 1]) by {
        HeldAfterOneMore(keyOf, text[..i], text[i]);
        assert text[..i + 1] == text[..i] + [text[i]];
      }
    }
    assert text[..|text|] == text;
    TypedInOrder(keyOf, text, interactions);
  }

  /** Lets go of one modifier if it is down. */
  method ReleaseSticky(interactions: seq<Interaction>, stickyModifiers: bv4, m: Modifier) returns (r: seq<Interaction>)
    requires PlayAll(interactions).Some? && (m in PlayAll(interactions).value <==> m in Held(stickyModifiers))
    ensures r == interactions + IfDown(Held(stickyModifiers), m)
    ensures PlayAll(r) == Some(PlayAll(interactions).value - {m})
  {
    r := interactions;
    if stickyModifiers & Bit(m) != 0 {
      PlayOneMore(interactions, Release(m));
      r := interactions + [Release(m)];
    } else {
      assert PlayAll(interactions).value - {m} == PlayAll(interactions).value;
    }
  }

  function IfDown(down: set<Modifier>, m: Modifier): seq<Interaction> {
    if m in down then [Release(m)] else []
  }

  function Releases(down: set<Modifier>): seq<Interaction> {
    IfDown(down, Shift) + IfDown(down, Control) + IfDown(down, Alternate) + IfDown(down, Meta)
  }

  method ResetSticky(interactions: seq<Interaction>, stickyModifiers: bv4) returns (r: seq<Interaction>)
    requires PlayAll(interactions) == Some(Held(stickyModifiers))
    ensures r == interactions + Releases(Held(stickyModifiers)) && PlayAll(r) == Some({})
  {
    ghost var down := Held(stickyModifiers);
    r := ReleaseSticky(interactions, stickyModifiers, Shift);
    assert PlayAll(r) == Some(down - {Shift});
    r := ReleaseSticky(r, stickyModifiers, Control);
    assert PlayAll(r) == Some(down - {Shift} - {Control});
    r := ReleaseSticky(r, stickyModifiers, Alternate);
    assert PlayAll(r) == Some(down - {Shift} - {Control} - {Alternate});
    r := ReleaseSticky(r, stickyModifiers, Meta);
    NoneLeft(down);
    Regroup(interactions, IfDown(down, Shift), IfDown(down, Control), IfDown(down, Alternate), IfDown(down, Meta));
  }

  lemma Regroup(s: seq<Interaction>, a: seq<Interaction>, b: seq<Interaction>, c: seq<Interaction>, d: seq<Interaction>)
    ensures s + a + b + c + d == s + (a + b + c + d)
  {
  }

  /** Typing a text: one interaction for each code unit, in order, then the modifiers still down are let go.
      On a keyboard no key goes down twice or up twice, and in the end none is down. */
  method SendKeys(keyOf: KeyTable, text: seq<nat>) returns (interactions: seq<Interaction>)
    ensures |text| <= |interactions|
    ensures TextsOf(interactions[..|text|]) == Characters(keyOf, text)
    ensures KeysOf(interactions[..|text|]) == SpecialKeys(keyOf, text)
    ensures forall i :: 0 <= i < |text| ==> interactions[i] == Typed(keyOf, HeldAfter(keyOf, text[..i]), text[i])
    ensures interactions[|text|..] == Releases(HeldAfter(keyOf, text))
    ensures |interactions| == |text| + |HeldAfter(keyOf, text)|
    ensures PlayAll(interactions) == Some({})
  {
    var typed, stickyModifiers := TypeText(keyOf, text);
    interactions := ResetSticky(typed, stickyModifiers);
    assert interactions[..|text|] == typed;
    assert forall i :: 0 <= i < |text| ==> interactions[i] == typed[i];
    ReleasesCount(HeldAfter(keyOf, text));
  }

  lemma NoneLeft(down: set<Modifier>)
    ensures down - {Shift} - {Control} - {Alternate} - {Meta} == {}
  {
    forall m | m in down ensures m == Shift || m == Control || m == Alternate || m == Meta {
      match m case Shift => case Control => case Alternate => case Meta =>
    }
  }

  lemma OneLess(down: set<Modifier>, m: Modifier)
    ensures |down| == |down - {m}| + if m in down then 1 else 0
  {
    assert m in down ==> down == (down - {m}) + {m};
    assert m !in down ==> down == down - {m};
  }

  lemma ReleasesCount(down: set<Modifier>)
    ensures |Releases(down)| == |down|
  {
    OneLess(down, Shift);
    OneLess(down - {Shift}, Control);
    OneLess(down - {Shift} - {Control}, Alternate);
    OneLess(down - {Shift} - {Control} - {Alternate}, Meta);
    NoneLeft(down);
  }

  /** Typing with the keys of the WebDriver standard. */
  method ElementSendKeys(text: seq<nat>) returns (interactions: seq<Interaction>)
    ensures |interactions| == |text| + |HeldAfter(VirtualKeyForKey, text)|
    ensures TextsOf(interactions[..|text|]) == Characters(VirtualKeyForKey, text)
    ensures KeysOf(interactions[..|text|]) == SpecialKeys(VirtualKeyForKey, text)
    ensures forall i :: 0 <= i < |text| ==>
      interactions[i] == Typed(VirtualKeyForKey, HeldAfter(VirtualKeyForKey, text[..i]), text[i])
    ensures interactions[|text|..] == Releases(HeldAfter(VirtualKeyForKey, text))
    ensures PlayAll(interactions) == Some({})
  {
    interactions := SendKeys(VirtualKeyForKey, text);
  }
}
