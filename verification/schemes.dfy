/** The fixed table of colour schemes and the confirm-button step that
    cycles through it. */
module Schemes {
  import opened Wrappers
  import opened Colour

  /** Background, foreground and accent colour of one scheme. */
  datatype ColourScheme = ColourScheme(bg: Rgb, fg: Rgb, accent: Rgb)

  predicate ValidScheme(s: ColourScheme)
  {
    Valid(s.bg) && Valid(s.fg) && Valid(s.accent)
  }

  /** The colour `c` decodes from the hex literal with these three bytes. */
  function FromBytes(r: nat, g: nat, b: nat): Rgb
  {
    Rgb(r as real / 255.0, g as real / 255.0, b as real / 255.0)
  }

  /** `SCHEMES`, in source order; each entry holds the bytes of the source's
      hex literal, and `TableIsDecoded` shows it equals `c` of that literal. */
  const Table: seq<ColourScheme> := [
    ColourScheme(FromBytes(0x00, 0x00, 0x00), FromBytes(0xFF, 0xFF, 0xFF), FromBytes(0xFF, 0x00, 0x00)),
    ColourScheme(FromBytes(0xFF, 0xFF, 0xFF), FromBytes(0x00, 0x00, 0x00), FromBytes(0xFF, 0x00, 0x00)),
    ColourScheme(FromBytes(0x03, 0x01, 0x2C), FromBytes(0x19, 0x0E, 0x4F), FromBytes(0xEA, 0x63, 0x8C)),
    ColourScheme(FromBytes(0x00, 0x24, 0x00), FromBytes(0x27, 0x3B, 0x09), FromBytes(0x7B, 0x90, 0x4B)),
    ColourScheme(FromBytes(0x3C, 0x00, 0x00), FromBytes(0x77, 0x49, 0x36), FromBytes(0xF5, 0xD0, 0xC5)),
    ColourScheme(FromBytes(0xFF, 0x9B, 0x71), FromBytes(0xFF, 0xFD, 0x82), FromBytes(0xED, 0x21, 0x7C))
  ]

  /** The scheme built by `c` from three hex literals. */
  function SchemeOf(bg: string, fg: string, accent: string): Option<ColourScheme>
  {
    match (Decode(bg), Decode(fg), Decode(accent))
    case (Some(b), Some(f), Some(a)) => Some(ColourScheme(b, f, a))
    case _ => None
  }

  /** Every entry of `Table` is what `c` makes of the source's hex literals. */
  lemma TableIsDecoded()
    ensures SchemeOf("000000", "FFFFFF", "FF0000") == Some(Table[0])
    ensures SchemeOf("FFFFFF", "000000", "FF0000") == Some(Table[1])
    ensures SchemeOf("03012C", "190E4F", "EA638C") == Some(Table[2])
    ensures SchemeOf("002400", "273B09", "7B904B") == Some(Table[3])
    ensures SchemeOf("3C0000", "774936", "F5D0C5") == Some(Table[4])
    ensures SchemeOf("FF9B71", "FFFD82", "ED217C") == Some(Table[5])
  {
    LiteralDecodes("000000", 0x00, 0x00, 0x00);
    LiteralDecodes("FFFFFF", 0xFF, 0xFF, 0xFF);
    LiteralDecodes("FF0000", 0xFF, 0x00, 0x00);
    LiteralDecodes("03012C", 0x03, 0x01, 0x2C);
    LiteralDecodes("190E4F", 0x19, 0x0E, 0x4F);
    LiteralDecodes("EA638C", 0xEA, 0x63, 0x8C);
    LiteralDecodes("002400", 0x00, 0x24, 0x00);
    LiteralDecodes("273B09", 0x27, 0x3B, 0x09);
    LiteralDecodes("7B904B", 0x7B, 0x90, 0x4B);
    LiteralDecodes("3C0000", 0x3C, 0x00, 0x00);
    LiteralDecodes("774936", 0x77, 0x49, 0x36);
    LiteralDecodes("F5D0C5", 0xF5, 0xD0, 0xC5);
    LiteralDecodes("FF9B71", 0xFF, 0x9B, 0x71);
    LiteralDecodes("FFFD82", 0xFF, 0xFD, 0x82);
    LiteralDecodes("ED217C", 0xED, 0x21, 0x7C);
  }

  /** A hex literal that is the upper-case form of three bytes decodes to them. */
  lemma LiteralDecodes(s: string, r: nat, g: nat, b: nat)
    requires r < 256 && g < 256 && b < 256
    requires s == ToHex(r, g, b)
    ensures Decode(s) == Some(FromBytes(r, g, b))
  {
    DecodeToHex(r, g, b);
  }

  /** `len(SCHEMES)`. */
  const SchemeCount := 6

  /** The table has `SchemeCount` entries, every colour in it with channels in [0, 1]. */
  lemma TableShape()
    ensures |Table| == SchemeCount
    ensures forall i | 0 <= i < |Table| :: ValidScheme(Table[i])
  {
    assert ValidScheme(Table[0]);
    assert ValidScheme(Table[1]);
    assert ValidScheme(Table[2]);
    assert ValidScheme(Table[3]);
    assert ValidScheme(Table[4]);
    assert ValidScheme(Table[5]);
  }

  /** The index after one confirm press: `(i + 1) % len(SCHEMES)`. Python's
      `%` by a positive number agrees with Dafny's, so any integer in gives
      an index of the table out, and an index in range steps to the next
      entry, wrapping from the last to the first. */
  function NextScheme(i: int): (r: int)
    ensures 0 <= r < SchemeCount
    ensures 0 <= i < SchemeCount - 1 ==> r == i + 1
    ensures i == SchemeCount - 1 ==> r == 0
  {
    TableShape();
    (i + 1) % |Table|
  }

  /** The index after `n` confirm presses starting from `i`. */
  function Presses(i: int, n: nat): int
  {
    if n == 0 then i else NextScheme(Presses(i, n - 1))
  }

  /** `n` presses from an in-range index add `n` modulo the table size. */
  lemma {:induction false} PressesAdd(i: int, n: nat)
    requires 0 <= i < SchemeCount
    ensures Presses(i, n) == (i + n) % SchemeCount
  {
    if n > 0 {
      PressesAdd(i, n - 1);
      ModSucc(i + n - 1);
    }
  }

  lemma ModSucc(a: int)
    ensures ((a % SchemeCount) + 1) % SchemeCount == (a + 1) % SchemeCount
  {
  }

  /** Pressing confirm `len(SCHEMES)` times returns to the starting scheme,
      and no smaller positive number of presses does. */
  lemma FullCycle(i: int, n: nat)
    requires 0 <= i < SchemeCount
    ensures Presses(i, SchemeCount) == i
    ensures 0 < n < SchemeCount ==> Presses(i, n) != i
  {
    PressesAdd(i, |Table|);
    PressesAdd(i, n);
  }
}
