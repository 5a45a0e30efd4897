/** The table property flags: the `properties` word of a table is an OR of these bits,
    and the table layout tests each one on its own. The word is a 32-bit int in the
    library; only its bit pattern matters here, so it is a bv32. */
module TableFlags {

  const TableBorderHoriz: bv32 := 0x1
  const TableBorderVert: bv32 := 0x2
  const TableHeaderBorder: bv32 := 0x4
  const TableFooterBorder: bv32 := 0x8
  const TableTrailingText: bv32 := 0x10

  /** The five flags in declaration order. */
  const AllFlags: seq<bv32> := [TableBorderHoriz, TableBorderVert, TableHeaderBorder,
                                TableFooterBorder, TableTrailingText]

  /** Every bit some flag uses. */
  const FlagMask: bv32 := 0x1F

  /** A flag word read as the five independent switches it carries. */
  datatype TableProperties = TableProperties(
    borderHoriz: bool,
    borderVert: bool,
    headerBorder: bool,
    footerBorder: bool,
    trailingText: bool)

  /** The flag is set in the word. */
  predicate Has(props: bv32, flag: bv32)
  {
    props & flag != 0
  }

  /** The word obtained by OR-ing together the flags that are switched on. */
  function Encode(p: TableProperties): (props: bv32)
    ensures props & !FlagMask == 0
    ensures Has(props, TableBorderHoriz) <==> p.borderHoriz
    ensures Has(props, TableBorderVert) <==> p.borderVert
    ensures Has(props, TableHeaderBorder) <==> p.headerBorder
    ensures Has(props, TableFooterBorder) <==> p.footerBorder
    ensures Has(props, TableTrailingText) <==> p.trailingText
  {
    (if p.borderHoriz then TableBorderHoriz else 0)
    | (if p.borderVert then TableBorderVert else 0)
    | (if p.headerBorder then TableHeaderBorder else 0)
    | (if p.footerBorder then TableFooterBorder else 0)
    | (if p.trailingText then TableTrailingText else 0)
  }

  /** Each flag tested on its own. */
  function Decode(props: bv32): (p: TableProperties)
    ensures p.borderHoriz <==> Has(props, TableBorderHoriz)
    ensures p.borderVert <==> Has(props, TableBorderVert)
    ensures p.headerBorder <==> Has(props, TableHeaderBorder)
    ensures p.footerBorder <==> Has(props, TableFooterBorder)
    ensures p.trailingText <==> Has(props, TableTrailingText)
  {
    TableProperties(
      Has(props, TableBorderHoriz),
      Has(props, TableBorderVert),
      Has(props, TableHeaderBorder),
      Has(props, TableFooterBorder),
      Has(props, TableTrailingText))
  }

  /** Any combination of flags can be OR-ed together and read back unchanged. */
  lemma DecodeEncode(p: TableProperties)
    ensures Decode(Encode(p)) == p
  {
  }

  /** Reading a word and OR-ing its flags again keeps exactly the flag bits: bits outside
      the five flags are ignored by the table. */
  lemma EncodeDecode(props: bv32)
    ensures Encode(Decode(props)) == props & FlagMask
  {
  }

  /** The flags are distinct single bits, and together they fill FlagMask. */
  lemma FlagsAreSingleBits()
    ensures forall i :: 0 <= i < |AllFlags| ==> AllFlags[i] == 1 << i
    ensures forall i, j :: 0 <= i < j < |AllFlags| ==> AllFlags[i] & AllFlags[j] == 0
    ensures TableBorderHoriz | TableBorderVert | TableHeaderBorder | TableFooterBorder | TableTrailingText
            == FlagMask
  {
  }

  /** Setting one flag leaves every other flag as it was. */
  lemma FlagsIndependent(props: bv32, i: nat, j: nat)
    requires i < |AllFlags| && j < |AllFlags| && i != j
    ensures Has(props | AllFlags[i], AllFlags[i])
    ensures Has(props | AllFlags[i], AllFlags[j]) <==> Has(props, AllFlags[j])
  {
    FlagsAreSingleBits();
    var f, g := AllFlags[i], AllFlags[j];
    assert f != 0;
    if i < j {
      assert f & g == 0;
    } else {
      assert g & f == 0;
    }
    assert (props | f) & g == (props & g) | (f & g);
  }
}
