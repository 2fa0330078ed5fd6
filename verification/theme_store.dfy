/** The theme store: a theme mode and two RGB colours, each written only
    through a validating setter, so the stored values always stay valid. */
module ThemeStore {

  const MaterialYou: string := "material_you"
  const AlbumCover: string := "album_cover"

  /** One element of an array argument: a JavaScript number, or anything else. */
  datatype Component = Num(v: real) | NotNumber

  /** A colour argument: something that is not an array, or an array's elements. */
  datatype ColorArg = NotArray | ArrayOf(items: seq<Component>)

  datatype Theme = Theme(mode: string, albumCoverColor: seq<Component>, materialYouColor: seq<Component>)

  /** A colour as the setters accept it: exactly three numbers, each in [0, 255]. */
  predicate IsRgb(c: seq<Component>)
  {
    |c| == 3 && forall i :: 0 <= i < 3 ==> c[i].Num? && 0.0 <= c[i].v <= 255.0
  }

  predicate ValidColorArg(arg: ColorArg)
  {
    arg.ArrayOf? && IsRgb(arg.items)
  }

  function Rgb(r: real, g: real, b: real): seq<Component>
  {
    [Num(r), Num(g), Num(b)]
  }

  const DefaultBlue: seq<Component> := Rgb(64.0, 158.0, 255.0)
  const White: seq<Component> := Rgb(255.0, 255.0, 255.0)

  /** The store as created: Material You mode, both colours the default blue. */
  const Initial: Theme := Theme(MaterialYou, DefaultBlue, DefaultBlue)

  /** The preset Material You palettes offered to the user. */
  const Palettes: seq<seq<Component>> := [
    Rgb(64.0, 158.0, 255.0),
    Rgb(255.0, 152.0, 0.0),
    Rgb(76.0, 175.0, 80.0),
    Rgb(156.0, 39.0, 176.0),
    Rgb(244.0, 67.0, 54.0)
  ]

  /** Every state the store can be in: a known mode and two valid colours. */
  predicate Valid(t: Theme)
  {
    (t.mode == MaterialYou || t.mode == AlbumCover) && IsRgb(t.albumCoverColor) && IsRgb(t.materialYouColor)
  }

  /** `setThemeMode`: the mode changes iff the argument is one of the two known
      modes; the colours never change. */
  function SetThemeMode(t: Theme, mode: string): (t': Theme)
    ensures mode == MaterialYou || mode == AlbumCover ==> t'.mode == mode
    ensures !(mode == MaterialYou || mode == AlbumCover) ==> t' == t
    ensures t'.albumCoverColor == t.albumCoverColor && t'.materialYouColor == t.materialYouColor
  {
    if mode in [MaterialYou, AlbumCover] then t.(mode := mode) else t
  }

  /** `setMaterialYouColor`: stored iff the argument is a valid RGB array;
      the mode and the album colour never change. */
  function SetMaterialYouColor(t: Theme, color: ColorArg): (t': Theme)
    ensures ValidColorArg(color) ==> t'.materialYouColor == color.items
    ensures !ValidColorArg(color) ==> t' == t
    ensures t'.mode == t.mode && t'.albumCoverColor == t.albumCoverColor
  {
    if ValidColorArg(color) then t.(materialYouColor := color.items) else t
  }

  /** `setAlbumCoverColor`: stored iff the argument is a valid RGB array;
      the mode and the Material You colour never change. */
  function SetAlbumCoverColor(t: Theme, color: ColorArg): (t': Theme)
    ensures ValidColorArg(color) ==> t'.albumCoverColor == color.items
    ensures !ValidColorArg(color) ==> t' == t
    ensures t'.mode == t.mode && t'.materialYouColor == t.materialYouColor
  {
    if ValidColorArg(color) then t.(albumCoverColor := color.items) else t
  }

  /** `extractColorFromImage` (colour extraction is switched off): the album colour
      becomes white and the Material You colour the default blue, whatever they were. */
  function ExtractColorFromImage(t: Theme): (t': Theme)
    ensures t'.albumCoverColor == White && t'.materialYouColor == DefaultBlue
    ensures t'.mode == t.mode
  {
    SetMaterialYouColor(SetAlbumCoverColor(t, ArrayOf(White)), ArrayOf(DefaultBlue))
  }

  lemma ExtractColorFromImageIdempotent(t: Theme)
    ensures ExtractColorFromImage(ExtractColorFromImage(t)) == ExtractColorFromImage(t)
  {
  }

  /** Every preset palette passes the colour validation, so choosing one always takes effect. */
  lemma PalettesAreValid()
    ensures forall i :: 0 <= i < |Palettes| ==> IsRgb(Palettes[i])
  {
  }

  /** A call on the store's public setters. */
  datatype Command =
    | SetMode(mode: string)
    | SetMaterialYou(color: ColorArg)
    | SetAlbumCover(color: ColorArg)
    | ExtractFromImage

  function Step(t: Theme, c: Command): Theme
  {
    match c
    case SetMode(m) => SetThemeMode(t, m)
    case SetMaterialYou(col) => SetMaterialYouColor(t, col)
    case SetAlbumCover(col) => SetAlbumCoverColor(t, col)
    case ExtractFromImage => ExtractColorFromImage(t)
  }

  function Run(t: Theme, cmds: seq<Command>): Theme
    decreases |cmds|
  {
    if |cmds| == 0 then t else Run(Step(t, cmds[0]), cmds[1..])
  }

  /** The store is valid when created, and any sequence of setter calls, with
      any arguments, keeps it valid. */
  lemma {:induction false} AlwaysValid(t: Theme, cmds: seq<Command>)
    requires Valid(t)
    ensures Valid(Initial)
    ensures Valid(Run(t, cmds))
    decreases |cmds|
  {
    if |cmds| > 0 {
      AlwaysValid(Step(t, cmds[0]), cmds[1..]);
    }
  }
}
