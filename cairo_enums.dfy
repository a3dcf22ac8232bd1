/**
 * cairo's enums (cairo/src/enums.rs): every binding converts between its
 * variants and the C enum's codes by the `CodeTable` scheme, and `Format`
 * computes strides. The codes are those of cairo's C headers;
 * `MeshCorner` codes are `u32`, every other code is an `i32`.
 */
module CairoEnums {
  import opened Wrappers
  import opened CodeTable
  import CairoError

  /** `Antialias` (cairo/src/enums.rs:113). */
  const ANTIALIAS := Table("Antialias",
    ["Default", "None", "Gray", "Subpixel", "Fast", "Good", "Best"],
    Range(0, 7))

  /** `FillRule` (cairo/src/enums.rs:178). */
  const FILL_RULE := Table("FillRule",
    ["Winding", "EvenOdd"],
    Range(0, 2))

  /** `LineCap` (cairo/src/enums.rs:226). */
  const LINE_CAP := Table("LineCap",
    ["Butt", "Round", "Square"],
    Range(0, 3))

  /** `LineJoin` (cairo/src/enums.rs:280). */
  const LINE_JOIN := Table("LineJoin",
    ["Miter", "Round", "Bevel"],
    Range(0, 3))

  /** `Operator` (cairo/src/enums.rs:449). */
  const OPERATOR := Table("Operator",
    [
      "Clear", "Source", "Over", "In", "Out", "Atop", "Dest", "DestOver", "DestIn", "DestOut",
      "DestAtop", "Xor", "Add", "Saturate", "Multiply", "Screen", "Overlay", "Darken",
      "Lighten", "ColorDodge", "ColorBurn", "HardLight", "SoftLight", "Difference",
      "Exclusion", "HslHue", "HslSaturation", "HslColor", "HslLuminosity"
    ],
    Range(0, 29))

  /** `PathDataType` (cairo/src/enums.rs:547). */
  const PATH_DATA_TYPE := Table("PathDataType",
    ["MoveTo", "LineTo", "CurveTo", "ClosePath"],
    Range(0, 4))

  /** `Content` (cairo/src/enums.rs:608). */
  const CONTENT := Table("Content",
    ["Color", "Alpha", "ColorAlpha"],
    [0x1000, 0x2000, 0x3000])

  /** `Extend` (cairo/src/enums.rs:666). */
  const EXTEND := Table("Extend",
    ["None", "Repeat", "Reflect", "Pad"],
    Range(0, 4))

  /** `Filter` (cairo/src/enums.rs:730). */
  const FILTER := Table("Filter",
    ["Fast", "Good", "Best", "Nearest", "Bilinear", "Gaussian"],
    Range(0, 6))

  /** `PatternType` (cairo/src/enums.rs:814). */
  const PATTERN_TYPE := Table("PatternType",
    ["Solid", "Surface", "LinearGradient", "RadialGradient", "Mesh", "RasterSource"],
    Range(0, 6))

  /** `FontSlant` (cairo/src/enums.rs:871). */
  const FONT_SLANT := Table("FontSlant",
    ["Normal", "Italic", "Oblique"],
    Range(0, 3))

  /** `FontWeight` (cairo/src/enums.rs:915). */
  const FONT_WEIGHT := Table("FontWeight",
    ["Normal", "Bold"],
    Range(0, 2))

  /** `TextClusterFlags` (cairo/src/enums.rs:957). */
  const TEXT_CLUSTER_FLAGS := Table("TextClusterFlags",
    ["None", "Backward"],
    Range(0, 2))

  /** `FontType` (cairo/src/enums.rs:1028). */
  const FONT_TYPE := Table("FontType",
    [
      "FontTypeToy", "FontTypeFt", "FontTypeWin32", "FontTypeQuartz", "FontTypeUser",
      "FontTypeDwrite"
    ],
    Range(0, 6))

  /** `SubpixelOrder` (cairo/src/enums.rs:1093). */
  const SUBPIXEL_ORDER := Table("SubpixelOrder",
    ["Default", "Rgb", "Bgr", "Vrgb", "Vbgr"],
    Range(0, 5))

  /** `HintStyle` (cairo/src/enums.rs:1163). */
  const HINT_STYLE := Table("HintStyle",
    ["Default", "None", "Slight", "Medium", "Full"],
    Range(0, 5))

  /** `HintMetrics` (cairo/src/enums.rs:1219). */
  const HINT_METRICS := Table("HintMetrics",
    ["Default", "Off", "On"],
    Range(0, 3))

  /** `SurfaceType` (cairo/src/enums.rs:1395). */
  const SURFACE_TYPE := Table("SurfaceType",
    [
      "Image", "Pdf", "Ps", "Xlib", "Xcb", "Glitz", "Quartz", "Win32", "BeOs", "DirectFb",
      "Svg", "Os2", "Win32Printing", "QuartzImage", "Script", "Qt", "Recording", "Vg", "Gl",
      "Drm", "Tee", "Xml", "Skia", "Subsurface", "Cogl"
    ],
    Range(0, 25))

  /** `SvgUnit` (cairo/src/enums.rs:1528). */
  const SVG_UNIT := Table("SvgUnit",
    ["User", "Em", "Ex", "Px", "In", "Cm", "Mm", "Pt", "Pc", "Percent"],
    Range(0, 10))

  /** `Format` (cairo/src/enums.rs:1615). */
  const FORMAT := Table("Format",
    ["Invalid", "ARgb32", "Rgb24", "A8", "A1", "Rgb16_565", "Rgb30"],
    [-1] + Range(0, 6))

  /** `RegionOverlap` (cairo/src/enums.rs:1690). */
  const REGION_OVERLAP := Table("RegionOverlap",
    ["In", "Out", "Part"],
    Range(0, 3))

  /** `PdfMetadata` (cairo/src/enums.rs:1779). */
  const PDF_METADATA := Table("PdfMetadata",
    ["Title", "Author", "Subject", "Keywords", "Creator", "CreateDate", "ModDate"],
    Range(0, 7))

  /** `PdfVersion` (cairo/src/enums.rs:1846). */
  const PDF_VERSION := Table("PdfVersion",
    ["_1_4", "_1_5", "_1_6", "_1_7"],
    Range(0, 4))

  /** `SvgVersion` (cairo/src/enums.rs:1899). */
  const SVG_VERSION := Table("SvgVersion",
    ["_1_1", "_1_2"],
    Range(0, 2))

  /** `PsLevel` (cairo/src/enums.rs:1945). */
  const PS_LEVEL := Table("PsLevel",
    ["_2", "_3"],
    Range(0, 2))

  /** `MeshCorner` (cairo/src/enums.rs:1996). */
  const MESH_CORNER := Table("MeshCorner",
    ["MeshCorner0", "MeshCorner1", "MeshCorner2", "MeshCorner3"],
    Range(0, 4))

  /** `FtSynthesize` (cairo/src/enums.rs:2051). */
  const FT_SYNTHESIZE := Table("FtSynthesize",
    ["Bold", "Oblique"],
    Range(1, 2))

  /** `ScriptMode` (cairo/src/enums.rs:2096). */
  const SCRIPT_MODE := Table("ScriptMode",
    ["Ascii", "Binary"],
    Range(0, 2))

  /** `DeviceType` (cairo/src/enums.rs:2167). */
  const DEVICE_TYPE := Table("DeviceType",
    ["Drm", "Gl", "Script", "Xcb", "Xlib", "Xml", "Cogl", "Win32", "Invalid"],
    Range(0, 8) + [-1])

  /**
   * Every binding of this file is well formed, so `CodeTable.CodeRoundTrip`,
   * `CodeTable.VariantRoundTrip` and `CodeTable.ToCodeInjective` apply to it.
   */
  lemma TablesWellFormed1()
    ensures WellFormed(ANTIALIAS)
      && WellFormed(FILL_RULE)
      && WellFormed(LINE_CAP)
      && WellFormed(LINE_JOIN)
      && WellFormed(OPERATOR)
      && WellFormed(PATH_DATA_TYPE)
  {
    RangeWellFormed(ANTIALIAS, [], 0, 7, []);
    RangeWellFormed(FILL_RULE, [], 0, 2, []);
    RangeWellFormed(LINE_CAP, [], 0, 3, []);
    RangeWellFormed(LINE_JOIN, [], 0, 3, []);
    RangeWellFormed(OPERATOR, [], 0, 29, []);
    RangeWellFormed(PATH_DATA_TYPE, [], 0, 4, []);
  }

  lemma TablesWellFormed2()
    ensures WellFormed(CONTENT)
      && WellFormed(EXTEND)
      && WellFormed(FILTER)
      && WellFormed(PATTERN_TYPE)
      && WellFormed(FONT_SLANT)
      && WellFormed(FONT_WEIGHT)
  {
    RangeWellFormed(CONTENT, [0x1000, 0x2000, 0x3000], 0, 0, []);
    RangeWellFormed(EXTEND, [], 0, 4, []);
    RangeWellFormed(FILTER, [], 0, 6, []);
    RangeWellFormed(PATTERN_TYPE, [], 0, 6, []);
    RangeWellFormed(FONT_SLANT, [], 0, 3, []);
    RangeWellFormed(FONT_WEIGHT, [], 0, 2, []);
  }

  lemma TablesWellFormed3()
    ensures WellFormed(TEXT_CLUSTER_FLAGS)
      && WellFormed(FONT_TYPE)
      && WellFormed(SUBPIXEL_ORDER)
      && WellFormed(HINT_STYLE)
      && WellFormed(HINT_METRICS)
      && WellFormed(SURFACE_TYPE)
  {
    RangeWellFormed(TEXT_CLUSTER_FLAGS, [], 0, 2, []);
    RangeWellFormed(FONT_TYPE, [], 0, 6, []);
    RangeWellFormed(SUBPIXEL_ORDER, [], 0, 5, []);
    RangeWellFormed(HINT_STYLE, [], 0, 5, []);
    RangeWellFormed(HINT_METRICS, [], 0, 3, []);
    RangeWellFormed(SURFACE_TYPE, [], 0, 25, []);
  }

  lemma TablesWellFormed4()
    ensures WellFormed(SVG_UNIT)
      && WellFormed(FORMAT)
      && WellFormed(REGION_OVERLAP)
      && WellFormed(PDF_METADATA)
      && WellFormed(PDF_VERSION)
      && WellFormed(SVG_VERSION)
  {
    RangeWellFormed(SVG_UNIT, [], 0, 10, []);
    RangeWellFormed(FORMAT, [-1], 0, 6, []);
    RangeWellFormed(REGION_OVERLAP, [], 0, 3, []);
    RangeWellFormed(PDF_METADATA, [], 0, 7, []);
    RangeWellFormed(PDF_VERSION, [], 0, 4, []);
    RangeWellFormed(SVG_VERSION, [], 0, 2, []);
  }

  lemma TablesWellFormed5()
    ensures WellFormed(PS_LEVEL)
      && WellFormed(MESH_CORNER)
      && WellFormed(FT_SYNTHESIZE)
      && WellFormed(SCRIPT_MODE)
      && WellFormed(DEVICE_TYPE)
  {
    RangeWellFormed(PS_LEVEL, [], 0, 2, []);
    RangeWellFormed(MESH_CORNER, [], 0, 4, []);
    RangeWellFormed(FT_SYNTHESIZE, [], 1, 2, []);
    RangeWellFormed(SCRIPT_MODE, [], 0, 2, []);
    RangeWellFormed(DEVICE_TYPE, [], 0, 8, [-1]);
  }

  /** A few conversions, as cairo's headers number them. */
  lemma ConversionExamples()
    ensures FromCode(FORMAT, -1) == Named(0) && FORMAT.names[0] == "Invalid"
    ensures FromCode(FORMAT, 1) == Named(2) && FORMAT.names[2] == "Rgb24"
    ensures FromCode(FORMAT, 99) == Unknown(99)
    ensures FromCode(CONTENT, 0x2000) == Named(1) && CONTENT.names[1] == "Alpha"
    ensures FromCode(DEVICE_TYPE, -1) == Named(8) && DEVICE_TYPE.names[8] == "Invalid"
  {
    TablesWellFormed2();
    TablesWellFormed4();
    TablesWellFormed5();
    VariantRoundTrip(FORMAT, Named(0));
    VariantRoundTrip(FORMAT, Named(2));
    VariantRoundTrip(CONTENT, Named(1));
    VariantRoundTrip(DEVICE_TYPE, Named(8));
  }

  const I32_MAX := 0x7fff_ffff

  /** `Format::Rgb24`. */
  const RGB24 := Named(2)

  /**
   * `Format::stride_for_width`: `None` is the panic on a width above
   * `i32::MAX`; otherwise the stride cairo computes, with its -1 turned
   * into `Err(Error::InvalidFormat)`. `cStride` is
   * `cairo_format_stride_for_width`.
   */
  function StrideForWidth(format: Variant, width: nat, cStride: (int, int) -> int)
    : (r: Option<Result<int, Variant>>)
    requires IsVariantOf(FORMAT, format) && width < 0x1_0000_0000
    ensures r.None? <==> width > I32_MAX
    ensures r.Some? && r.value.Err? <==> width <= I32_MAX && cStride(ToCode(FORMAT, format), width) == -1
    ensures r.Some? && r.value.Err? ==> r.value.error == CairoError.INVALID_FORMAT
    ensures r.Some? && r.value.Ok? ==> r.value.value == cStride(ToCode(FORMAT, format), width) != -1
  {
    if width > I32_MAX then None
    else
      var stride := cStride(ToCode(FORMAT, format), width);
      if stride == -1 then Some(Err(CairoError.INVALID_FORMAT)) else Some(Ok(stride))
  }

  /** Bits per pixel of the formats cairo 1.16 knows, 0 for any other code. */
  function BitsPerPixel(code: int): nat
  {
    if code == 0 || code == 1 || code == 5 then 32
    else if code == 2 then 8
    else if code == 3 then 1
    else if code == 4 then 16
    else 0
  }

  /**
   * `cairo_format_stride_for_width` of cairo's C library: -1 for an invalid
   * format or a width too large, else the row size in bytes rounded up to
   * a multiple of 4.
   */
  function CairoStrideForWidth(code: int, width: int): (stride: int)
    ensures stride != -1 ==> stride >= 0 && stride % 4 == 0 && stride * 8 >= BitsPerPixel(code) * width
  {
    var bpp := BitsPerPixel(code);
    if bpp == 0 || width < 0 || width >= (I32_MAX - 7) / bpp then -1
    else ((bpp * width + 7) / 8 + 3) / 4 * 4
  }

  /** The stride tests of the file, against cairo's own computation. */
  lemma StrideExamples()
    ensures StrideForWidth(RGB24, 0xffff_ffff, CairoStrideForWidth).None?
    ensures StrideForWidth(RGB24, I32_MAX, CairoStrideForWidth) == Some(Err(CairoError.INVALID_FORMAT))
    ensures StrideForWidth(RGB24, 1, CairoStrideForWidth) == Some(Ok(4))
  {
  }
}
