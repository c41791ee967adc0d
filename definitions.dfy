/** src/definitions.ts: the schemas of the Clay structures the canvas
    renderer reads with src/structs.ts, and their packed sizes. */
module Definitions {
  import opened Structs

  function F(name: string): Member { Member(name, Prim(Float)) }
  function U32(name: string): Member { Member(name, Prim(Uint32)) }
  function U16(name: string): Member { Member(name, Prim(Uint16)) }
  function U8(name: string): Member { Member(name, Prim(Uint8)) }
  function B(name: string): Member { Member(name, Prim(Bool)) }

  function StructOf(members: seq<Member>): Def { Composite(false, members) }

  const ColorDef := StructOf([F("r"), F("g"), F("b"), F("a")])
  const StringDef := StructOf([U32("length"), U32("chars")])
  const BorderDef := StructOf([U32("width"), Member("color", ColorDef)])
  const CornerRadiusDef := StructOf([F("topLeft"), F("topRight"), F("bottomLeft"), F("bottomRight")])
  const RectangleConfigDef := StructOf([
    Member("color", ColorDef), Member("cornerRadius", CornerRadiusDef),
    Member("link", StringDef), U8("cursorPointer")])
  const BorderConfigDef := StructOf([
    Member("left", BorderDef), Member("right", BorderDef), Member("top", BorderDef),
    Member("bottom", BorderDef), Member("betweenChildren", BorderDef),
    Member("cornerRadius", CornerRadiusDef)])
  const TextConfigDef := StructOf([
    Member("textColor", ColorDef), U16("fontId"), U16("fontSize"), U16("letterSpacing"),
    U16("lineSpacing"), U32("wrapMode"), U8("disablePointerEvents")])
  const ScrollConfigDef := StructOf([B("horizontal"), B("vertical")])
  const ImageConfigDef := StructOf([
    U32("imageData"), Member("sourceDimensions", StructOf([F("width"), F("height")])),
    Member("sourceURL", StringDef)])
  const CustomConfigDef := StructOf([U32("customData")])
  const RenderCommandDef := StructOf([
    Member("boundingBox", StructOf([F("x"), F("y"), F("width"), F("height")])),
    U32("config"), Member("text", StringDef), U32("id"), U32("commandType")])

  lemma ColorAndStringSizes()
    ensures TotalSize(ColorDef) == 16
    ensures TotalSize(StringDef) == 8
  {
  }

  lemma BorderAndCornerRadiusSizes()
    ensures TotalSize(BorderDef) == 20
    ensures TotalSize(CornerRadiusDef) == 16
  {
    ColorAndStringSizes();
    assert MembersSize(BorderDef, 1) == 4;
  }

  lemma RectangleConfigSize()
    ensures TotalSize(RectangleConfigDef) == 41
  {
    ColorAndStringSizes();
    BorderAndCornerRadiusSizes();
    assert MembersSize(RectangleConfigDef, 1) == 16;
    assert MembersSize(RectangleConfigDef, 2) == 32;
    assert MembersSize(RectangleConfigDef, 3) == 40;
    assert MembersSize(RectangleConfigDef, 4) == 41;
  }

  lemma BorderConfigSize()
    ensures TotalSize(BorderConfigDef) == 116
  {
    BorderAndCornerRadiusSizes();
    assert MembersSize(BorderConfigDef, 1) == 20;
    assert MembersSize(BorderConfigDef, 2) == 40;
    assert MembersSize(BorderConfigDef, 3) == 60;
    assert MembersSize(BorderConfigDef, 4) == 80;
    assert MembersSize(BorderConfigDef, 5) == 100;
  }

  lemma TextConfigSize()
    ensures TotalSize(TextConfigDef) == 29
    ensures TotalSize(TextConfigDef) % 4 != 0
  {
    ColorAndStringSizes();
    assert MembersSize(TextConfigDef, 1) == 16;
    assert MembersSize(TextConfigDef, 3) == 20;
    assert MembersSize(TextConfigDef, 5) == 24;
    assert MembersSize(TextConfigDef, 6) == 28;
    assert MembersSize(TextConfigDef, 7) == 29;
  }

  lemma SmallConfigSizes()
    ensures TotalSize(ScrollConfigDef) == 2
    ensures TotalSize(ImageConfigDef) == 20
    ensures TotalSize(CustomConfigDef) == 4
  {
    ColorAndStringSizes();
    assert TotalSize(ImageConfigDef.members[1].def) == 8;
    assert MembersSize(ImageConfigDef, 1) == 4;
    assert MembersSize(ImageConfigDef, 2) == 12;
  }

  lemma RenderCommandLayout()
    ensures TotalSize(RenderCommandDef) == 36
    ensures MemberAddress(0, RenderCommandDef, 1) == 16
    ensures MemberAddress(0, RenderCommandDef, 2) == 20
    ensures MemberAddress(0, RenderCommandDef, 3) == 28
    ensures MemberAddress(0, RenderCommandDef, 4) == 32
  {
    ColorAndStringSizes();
    assert TotalSize(RenderCommandDef.members[0].def) == 16;
    assert MembersSize(RenderCommandDef, 1) == 16;
    assert MembersSize(RenderCommandDef, 2) == 20;
    assert MembersSize(RenderCommandDef, 3) == 28;
    assert MembersSize(RenderCommandDef, 4) == 32;
  }

  /** Every schema here uses only member names that `readStructValueAtAddress`
      stores as ordinary keys, so its size entry and its fields stay apart:
      first the schemas of primitives only, then those that nest them. */
  lemma FlatSchemasHavePlainNames()
    ensures PlainNames(ColorDef) && PlainNames(StringDef) && PlainNames(CornerRadiusDef)
    ensures PlainNames(ScrollConfigDef) && PlainNames(CustomConfigDef)
  {
  }

  lemma NestedSchemasHavePlainNames()
    ensures PlainNames(BorderDef) && PlainNames(RectangleConfigDef) && PlainNames(BorderConfigDef)
  {
    FlatSchemasHavePlainNames();
    assert PlainNames(BorderDef);
  }

  lemma CommandSchemasHavePlainNames()
    ensures PlainNames(TextConfigDef) && PlainNames(ImageConfigDef) && PlainNames(RenderCommandDef)
  {
    FlatSchemasHavePlainNames();
    assert PlainNames(ImageConfigDef.members[1].def);
    assert PlainNames(RenderCommandDef.members[0].def);
  }
}
