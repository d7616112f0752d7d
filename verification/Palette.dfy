/** The colour-palette picker (components/ColorPaletteSelector.tsx): a constant table
    of eight presets, a case-insensitive "selected" test and three handlers that each
    emit a whole (primary, accent) pair. */
module Palette {
  import opened Text

  datatype Palette = Palette(name: string, primary: string, accent: string)

  /** The colours a handler hands to `onColorChange`. */
  datatype ColorPair = ColorPair(primary: string, accent: string)

  const Palettes: seq<Palette> := [
    Palette("Indigo & Pink", "#6366F1", "#F472B6"),
    Palette("Teal & Lime", "#14B8A6", "#A3E635"),
    Palette("Slate & Sky", "#475569", "#38BDF8"),
    Palette("Rose & Amber", "#E11D48", "#F59E0B"),
    Palette("Violet & Emerald", "#7C3AED", "#10B981"),
    Palette("Charcoal & Red", "#334155", "#EF4444"),
    Palette("Ocean & Coral", "#0891B2", "#FB7185"),
    Palette("Forest & Gold", "#166534", "#FACC15")
  ]

  /** Lower-casing keeps every position's character lower-cased, so strings whose
      lower-cased characters differ somewhere stay different. */
  lemma LowerDiffers(a: string, b: string, k: nat)
    requires k < |a| && k < |b| && ToLowerChar(a[k]) != ToLowerChar(b[k])
    ensures ToLower(a) != ToLower(b)
  {
    assert ToLower(a)[k] != ToLower(b)[k];
  }

  /** No two presets share a primary colour, even ignoring case: the second or third
      characters already tell them apart. */
  lemma PrimariesDistinct(i: nat, j: nat)
    requires i < |Palettes| && j < |Palettes| && i != j
    ensures ToLower(Palettes[i].primary) != ToLower(Palettes[j].primary)
  {
    var a, b := Palettes[i].primary, Palettes[j].primary;
    if ToLowerChar(a[1]) != ToLowerChar(b[1]) {
      LowerDiffers(a, b, 1);
    } else {
      LowerDiffers(a, b, 2);
    }
  }

  /** `isSelected`: both colours equal the current ones, ignoring ASCII case. */
  predicate IsSelected(p: Palette, current: ColorPair) {
    ToLower(p.primary) == ToLower(current.primary) && ToLower(p.accent) == ToLower(current.accent)
  }

  /** Whatever the current colours, at most one preset is marked selected. */
  lemma AtMostOneSelected(current: ColorPair, i: nat, j: nat)
    requires i < |Palettes| && j < |Palettes|
    requires IsSelected(Palettes[i], current) && IsSelected(Palettes[j], current)
    ensures i == j
  {
    if i != j {
      PrimariesDistinct(i, j);
    }
  }

  /** A click on preset `i` emits exactly its pair, which then selects that preset and
      no other. */
  function OnPresetClick(i: nat): (r: ColorPair)
    requires i < |Palettes|
    ensures r.primary == Palettes[i].primary && r.accent == Palettes[i].accent
    ensures IsSelected(Palettes[i], r)
    ensures forall j :: 0 <= j < |Palettes| && IsSelected(Palettes[j], r) ==> j == i
  {
    var r := ColorPair(Palettes[i].primary, Palettes[i].accent);
    assert forall j :: 0 <= j < |Palettes| && IsSelected(Palettes[j], r) ==> j == i by {
      forall j | 0 <= j < |Palettes| && IsSelected(Palettes[j], r)
        ensures j == i
      {
        AtMostOneSelected(r, i, j);
      }
    }
    r
  }

  /** The custom primary input: a new primary, the accent kept. */
  function OnPrimaryChange(current: ColorPair, value: string): (r: ColorPair)
    ensures r.primary == value && r.accent == current.accent
  {
    ColorPair(value, current.accent)
  }

  /** The custom accent input: a new accent, the primary kept. */
  function OnAccentChange(current: ColorPair, value: string): (r: ColorPair)
    ensures r.primary == current.primary && r.accent == value
  {
    ColorPair(current.primary, value)
  }
}
