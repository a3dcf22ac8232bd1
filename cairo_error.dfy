/**
 * cairo's error type (cairo/src/error.rs): `Error` and its conversions to
 * and from `cairo_status_t`, its messages, and the `IoError` and
 * `BorrowError` wrappers. The status codes are those of cairo's
 * `cairo_status_t` (`CAIRO_STATUS_SUCCESS` is 0 and has no variant; 42,
 * `CAIRO_STATUS_TAG_ERROR`, has none either).
 */
module CairoError {
  import opened CodeTable
  import Text

  /** `Error`, by variant name, and the status code of each. */
  const ERROR := Table("Error",
    [
      "NoMemory", "InvalidRestore", "InvalidPopGroup", "NoCurrentPoint", "InvalidMatrix",
      "InvalidStatus", "NullPointer", "InvalidString", "InvalidPathData", "ReadError", "WriteError",
      "SurfaceFinished", "SurfaceTypeMismatch", "PatternTypeMismatch", "InvalidContent",
      "InvalidFormat", "InvalidVisual", "FileNotFound", "InvalidDash", "InvalidDscComment",
      "InvalidIndex", "ClipNotRepresentable", "TempFileError", "InvalidStride", "FontTypeMismatch",
      "UserFontImmutable", "UserFontError", "NegativeCount", "InvalidClusters", "InvalidSlant",
      "InvalidWeight", "InvalidSize", "UserFontNotImplemented", "DeviceTypeMismatch", "DeviceError",
      "InvalidMeshConstruction", "DeviceFinished", "JBig2GlobalMissing", "PngError",
      "FreetypeError", "Win32GdiError", "LastStatus"
    ],
    Range(1, 41) + [43])

  /** The `#[error]` message of each named variant, in the same order. */
  const MESSAGES: seq<string> := [
      "No Memory", "Invalid Restore", "Invalid Pop Group", "No Current Point", "Invalid Matrix",
      "Invalid Status", "Null Pointer", "Invalid String", "Invalid Path Data", "Cairo : Read Error",
      "Write Error", "Surface Finished", "Surface Type Mismatch", "Pattern Type Mismatch",
      "Invalid Content", "Invalid Format", "Invalid Visual", "File Not Found", "Invalid Dash",
      "Invalid Dash Comment", "Invalid Index", "Clip Not Representable", "Temp File Error",
      "Invalid Stride", "Font Type Mismatch", "User Font Immutable", "User Font Error",
      "Negative Count", "Invalid Clusters", "Invalid Slant", "Invalid Weight", "Invalid Size",
      "User Font Not Implemented", "Device Type Mismatch", "Device Error",
      "Invalid Mesh Construction", "Device Finished", "JBig2Global Missing", "PNG Error",
      "Freetype Error", "Win32Gdi Error", "LastStatus"
  ]

  /** `Error::InvalidFormat`. */
  const INVALID_FORMAT := Named(15)

  lemma ErrorTableWellFormed()
    ensures WellFormed(ERROR) && |MESSAGES| == |ERROR.codes|
    ensures ERROR.names[INVALID_FORMAT.index] == "InvalidFormat" && ERROR.codes[INVALID_FORMAT.index] == 16
  {
    RangeWellFormed(ERROR, [], 1, 41, [43]);
  }

  /** status → `Error` → status is the identity for every status code, listed or not. */
  lemma StatusRoundTrip(status: int)
    ensures IsVariantOf(ERROR, FromCode(ERROR, status))
    ensures ToCode(ERROR, FromCode(ERROR, status)) == status
    ensures FromCode(ERROR, status).Unknown? <==> status !in ERROR.codes
  {
    CodeRoundTrip(ERROR, status);
  }

  /** `Error` → status → `Error` is the identity for named variants and for `__Unknown` of an unlisted code. */
  lemma ErrorRoundTrip(e: Variant)
    requires IsVariantOf(ERROR, e)
    requires e.Unknown? ==> e.code !in ERROR.codes
    ensures FromCode(ERROR, ToCode(ERROR, e)) == e
  {
    ErrorTableWellFormed();
    VariantRoundTrip(ERROR, e);
  }

  /** The `Display` of `Error`: its message, or `"Unknown n"`. */
  function Message(e: Variant): (s: string)
    requires IsVariantOf(ERROR, e)
    ensures e.Named? ==> s == MESSAGES[e.index]
    ensures e.Unknown? ==> s == "Unknown " + Text.IntToString(e.code)
  {
    ErrorTableWellFormed();
    match e
    case Named(i) => MESSAGES[i]
    case Unknown(n) => "Unknown " + Text.IntToString(n)
  }

  /** Different unknown codes display differently. */
  lemma UnknownMessageInjective(m: int, n: int)
    requires Message(Unknown(m)) == Message(Unknown(n))
    ensures m == n
  {
    var a, b := Text.IntToString(m), Text.IntToString(n);
    assert "Unknown " + a == "Unknown " + b;
    assert a == ("Unknown " + a)[8..];
    if m < 0 && n < 0 {
      assert Text.NatToString(-m) == a[1..] && Text.NatToString(-n) == b[1..];
      Text.NatToStringInjective(-m, -n);
    } else if m >= 0 && n >= 0 {
      Text.NatToStringInjective(m, n);
    }
  }

  /** `IoError`: a cairo error or an I/O error (whose message is all that is kept). */
  datatype IoError = Cairo(error: Variant) | Io(ioMessage: string)

  /** `From<Error> for IoError`. */
  function IoErrorFromCairo(e: Variant): (r: IoError)
    ensures r.Cairo? && r.error == e
  {
    Cairo(e)
  }

  /** `From<io::Error> for IoError`. */
  function IoErrorFromIo(message: string): (r: IoError)
    ensures r.Io? && r.ioMessage == message
  {
    Io(message)
  }

  function IoErrorMessage(e: IoError): (s: string)
    requires e.Cairo? ==> IsVariantOf(ERROR, e.error)
  {
    match e
    case Cairo(c) => "Cairo error: " + Message(c)
    case Io(m) => "IO error: " + m
  }

  /** `BorrowError`: a cairo error, or a surface that is not held exclusively. */
  datatype BorrowError = BorrowCairo(error: Variant) | NonExclusive

  function BorrowErrorMessage(e: BorrowError): string
    requires e.BorrowCairo? ==> IsVariantOf(ERROR, e.error)
  {
    match e
    case BorrowCairo(c) => "Failed to borrow with Cairo error: " + Message(c)
    case NonExclusive => "Can't get exclusive access"
  }

  /** The two sources of an `IoError` stay apart, and the message says which it was. */
  lemma IoErrorSources(c: Variant, m: string)
    requires IsVariantOf(ERROR, c)
    ensures IoErrorFromCairo(c) != IoErrorFromIo(m)
    ensures IoErrorMessage(IoErrorFromCairo(c))[..13] == "Cairo error: "
    ensures IoErrorMessage(IoErrorFromIo(m))[..10] == "IO error: "
  {
  }
}
