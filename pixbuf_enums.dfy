/**
 * gdk-pixbuf's generated enums (gdk-pixbuf/src/auto/enums.rs):
 * conversions by the `CodeTable` scheme, `Display`, and the
 * `ErrorDomain` of `PixbufError`. The codes are those of gdk-pixbuf's C
 * headers.
 */
module PixbufEnums {
  import opened Wrappers
  import opened CodeTable

  const COLORSPACE := Table("Colorspace", ["Rgb"], [0])

  const INTERP_TYPE := Table("InterpType", ["Nearest", "Tiles", "Bilinear", "Hyper"], Range(0, 4))

  const PIXBUF_ALPHA_MODE := Table("PixbufAlphaMode", ["Bilevel", "Full"], Range(0, 2))

  const PIXBUF_ERROR := Table("PixbufError",
    ["CorruptImage", "InsufficientMemory", "BadOption", "UnknownType", "UnsupportedOperation",
     "Failed", "IncompleteAnimation"],
    Range(0, 7))

  const PIXBUF_ROTATION := Table("PixbufRotation",
    ["None", "Counterclockwise", "Upsidedown", "Clockwise"],
    [0, 90, 180, 270])

  /** `PixbufError::Failed`. */
  const FAILED := Named(5)

  /**
   * Every binding of the file is well formed, so `CodeTable.CodeRoundTrip`
   * and `CodeTable.VariantRoundTrip` apply to it.
   */
  lemma TablesWellFormed()
    ensures WellFormed(COLORSPACE) && WellFormed(INTERP_TYPE) && WellFormed(PIXBUF_ALPHA_MODE)
    ensures WellFormed(PIXBUF_ERROR) && WellFormed(PIXBUF_ROTATION)
    ensures PIXBUF_ERROR.names[FAILED.index] == "Failed"
  {
    RangeWellFormed(COLORSPACE, [0], 0, 0, []);
    RangeWellFormed(INTERP_TYPE, [], 0, 4, []);
    RangeWellFormed(PIXBUF_ALPHA_MODE, [], 0, 2, []);
    RangeWellFormed(PIXBUF_ERROR, [], 0, 7, []);
    RangeWellFormed(PIXBUF_ROTATION, [0, 90, 180, 270], 0, 0, []);
  }

  /** `ErrorDomain::code`: the same code as `into_glib`, one of the table's codes for a named error. */
  function ErrorCode(e: Variant): (c: int)
    requires IsVariantOf(PIXBUF_ERROR, e)
    ensures e.Named? ==> c in PIXBUF_ERROR.codes && FromCode(PIXBUF_ERROR, c) == e
    ensures e.Unknown? ==> c == e.code
  {
    TablesWellFormed();
    if e.Named? then
      VariantRoundTrip(PIXBUF_ERROR, e);
      ToCode(PIXBUF_ERROR, e)
    else
      ToCode(PIXBUF_ERROR, e)
  }

  /** `ErrorDomain::from`: the named variant of a known code, and `Failed` for any other. */
  function ErrorFromCode(code: int): (r: Option<Variant>)
    ensures r.Some?
    ensures IsVariantOf(PIXBUF_ERROR, r.value) && r.value.Named?
  {
    match FromCode(PIXBUF_ERROR, code)
    case Named(i) => Some(Named(i))
    case Unknown(_) => Some(FAILED)
  }

  /**
   * `ErrorDomain::from` and `from_glib` agree on every known code; on an
   * unknown one `from_glib` keeps the code in `__Unknown` and
   * `ErrorDomain::from` says `Failed`.
   */
  lemma ErrorDomainAgreesWithFromGlib(code: int)
    ensures code in PIXBUF_ERROR.codes ==> ErrorFromCode(code) == Some(FromCode(PIXBUF_ERROR, code))
    ensures code !in PIXBUF_ERROR.codes ==>
      ErrorFromCode(code) == Some(FAILED) && FromCode(PIXBUF_ERROR, code) == Unknown(code)
  {
  }

  /** `ErrorDomain::from` after `code()` gives back every named error. */
  lemma ErrorDomainRoundTrip(e: Variant)
    requires IsVariantOf(PIXBUF_ERROR, e) && e.Named?
    ensures ErrorFromCode(ErrorCode(e)) == Some(e)
  {
    TablesWellFormed();
    VariantRoundTrip(PIXBUF_ERROR, e);
  }

  /** The generated `Display`, checked on a named and an unknown rotation. */
  lemma DisplayExamples()
    ensures Display(PIXBUF_ROTATION, Named(3)) == "PixbufRotation::Clockwise"
    ensures Display(PIXBUF_ROTATION, Unknown(45)) == "PixbufRotation::Unknown"
    ensures Display(COLORSPACE, FromCode(COLORSPACE, 0)) == "Colorspace::Rgb"
  {
    TablesWellFormed();
    VariantRoundTrip(COLORSPACE, Named(0));
  }
}
