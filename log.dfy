/**
 * GLib logging on the Rust side (glib/src/log.rs): the six log levels and
 * their GLogLevelFlags bits, `LogLevels::from_glib`, `to_log_flags`, and the
 * writer behind `g_log!` that doubles every `%` so that GLib does not read
 * the message as a printf format.
 */
module Log {
  import opened Wrappers
  import opened Bits

  /** GLogLevelFlags bits, as GLib's gmessages.h numbers them. */
  const G_LOG_FLAG_RECURSION: Bit := 0
  const G_LOG_FLAG_FATAL: Bit := 1
  const G_LOG_LEVEL_ERROR: Bit := 2
  const G_LOG_LEVEL_CRITICAL: Bit := 3
  const G_LOG_LEVEL_WARNING: Bit := 4
  const G_LOG_LEVEL_MESSAGE: Bit := 5
  const G_LOG_LEVEL_INFO: Bit := 6
  const G_LOG_LEVEL_DEBUG: Bit := 7

  const LEVEL_BITS: set<Bit> := {2, 3, 4, 5, 6, 7}

  datatype LogLevel = Error | Critical | Warning | Message | Info | Debug

  /** The bit of each level. */
  function LevelBit(l: LogLevel): (b: Bit)
    ensures b in LEVEL_BITS
  {
    match l
    case Error => G_LOG_LEVEL_ERROR
    case Critical => G_LOG_LEVEL_CRITICAL
    case Warning => G_LOG_LEVEL_WARNING
    case Message => G_LOG_LEVEL_MESSAGE
    case Info => G_LOG_LEVEL_INFO
    case Debug => G_LOG_LEVEL_DEBUG
  }

  /** Severity rank: 0 is the most severe (Error). */
  function Rank(l: LogLevel): nat
  {
    LevelBit(l) - G_LOG_LEVEL_ERROR
  }

  /** `IntoGlib for LogLevel`: one flag per level, distinct for distinct levels. */
  function IntoGlib(l: LogLevel): (w: Word)
    ensures w == Flag(LevelBit(l))
  {
    {LevelBit(l)}
  }

  /** Distinct levels get distinct flags. */
  lemma IntoGlibInjective(l: LogLevel, m: LogLevel)
    ensures IntoGlib(l) == IntoGlib(m) ==> l == m
  {
    assert LevelBit(l) in IntoGlib(l);
  }

  /**
   * `FromGlib<u32> for LogLevel`: the most severe level whose bit is present;
   * `None` stands for the `panic!("Unknown log level")` when no level bit is set.
   */
  function FromGlib(value: Word): (r: Option<LogLevel>)
    ensures r.None? <==> forall m :: LevelBit(m) !in value
    ensures r.Some? ==> LevelBit(r.value) in value
    ensures r.Some? ==> forall m :: LevelBit(m) in value ==> Rank(r.value) <= Rank(m)
  {
    if G_LOG_LEVEL_ERROR in value then assert LevelBit(Error) in value; Some(Error)
    else if G_LOG_LEVEL_CRITICAL in value then assert LevelBit(Critical) in value; Some(Critical)
    else if G_LOG_LEVEL_WARNING in value then assert LevelBit(Warning) in value; Some(Warning)
    else if G_LOG_LEVEL_MESSAGE in value then assert LevelBit(Message) in value; Some(Message)
    else if G_LOG_LEVEL_INFO in value then assert LevelBit(Info) in value; Some(Info)
    else if G_LOG_LEVEL_DEBUG in value then assert LevelBit(Debug) in value; Some(Debug)
    else None
  }

  lemma LevelRoundTrip(l: LogLevel)
    ensures FromGlib(IntoGlib(l)) == Some(l)
  {
  }

  /** `LogLevels::from_glib` is `from_bits_truncate`: bits outside the six levels are dropped. */
  function LevelsFromGlib(value: Word): (r: Word)
    ensures r <= LEVEL_BITS
    ensures forall b :: b in LEVEL_BITS ==> (b in r <==> b in value)
  {
    value * LEVEL_BITS
  }

  /** `to_log_flags`. */
  function ToLogFlags(fatal: bool, recursion: bool): (w: Word)
    ensures G_LOG_FLAG_FATAL in w <==> fatal
    ensures G_LOG_FLAG_RECURSION in w <==> recursion
    ensures w <= {G_LOG_FLAG_FATAL, G_LOG_FLAG_RECURSION}
  {
    (if fatal then {G_LOG_FLAG_FATAL} else {}) + (if recursion then {G_LOG_FLAG_RECURSION} else {})
  }

  /** The text the `g_log!` writer produces for `s`: each `%` doubled. */
  function Escape(s: string): (r: string)
  {
    if s == [] then []
    else (if s[0] == '%' then "%%" else [s[0]]) + Escape(s[1..])
  }

  /** The inverse reading: `%%` stands for one `%`. */
  function Unescape(s: string): string
  {
    if s == [] then []
    else if |s| >= 2 && s[0] == '%' && s[1] == '%' then "%" + Unescape(s[2..])
    else [s[0]] + Unescape(s[1..])
  }

  function CountPercent(s: string): nat
  {
    if s == [] then 0 else (if s[0] == '%' then 1 else 0) + CountPercent(s[1..])
  }

  /** Escaping keeps all text, adds one character per `%`, and `%%` reads back as `%`. */
  lemma {:induction false} EscapeProperties(s: string)
    ensures Unescape(Escape(s)) == s
    ensures |Escape(s)| == |s| + CountPercent(s)
    ensures '%' !in s ==> Escape(s) == s
  {
    if s != [] {
      EscapeProperties(s[1..]);
      var e := Escape(s);
      if s[0] == '%' {
        assert e == "%%" + Escape(s[1..]);
        assert e[2..] == Escape(s[1..]);
      } else {
        assert e == [s[0]] + Escape(s[1..]);
        assert e[1..] == Escape(s[1..]);
      }
      assert s == [s[0]] + s[1..];
    }
  }

  lemma {:induction false} EscapeAppend(a: string, b: string)
    ensures Escape(a + b) == Escape(a) + Escape(b)
  {
    if a == [] {
      assert a + b == b;
    } else {
      assert (a + b)[0] == a[0];
      assert (a + b)[1..] == a[1..] + b;
      EscapeAppend(a[1..], b);
    }
  }

  /** Index of the first `%` of `s`: what `split_once('%')` splits at. */
  function FindPercent(s: string): (k: Option<nat>)
    ensures k.None? <==> '%' !in s
    ensures k.Some? ==> k.value < |s| && s[k.value] == '%' && '%' !in s[..k.value]
  {
    if s == [] then None
    else if s[0] == '%' then Some(0)
    else match FindPercent(s[1..])
      case None => None
      case Some(k) => assert s[..k + 1] == [s[0]] + s[1..][..k]; Some(k + 1)
  }

  /** The `GWrite` of `g_log!`, around a `GStringBuilder`. */
  class GWrite {
    var buffer: string

    constructor ()
      ensures buffer == []
    {
      buffer := [];
    }

    /** `write_str`: loop over `split_once('%')`, appending each prefix and `%%`. */
    method WriteStr(s: string)
      modifies this
      ensures buffer == old(buffer) + Escape(s)
    {
      var rest := s;
      while FindPercent(rest).Some?
        invariant buffer + Escape(rest) == old(buffer) + Escape(s)
        decreases |rest|
      {
        var k := FindPercent(rest).value;
        var prefix, suffix := rest[..k], rest[k + 1..];
        assert rest == prefix + "%" + suffix;
        EscapeAppend(prefix + "%", suffix);
        EscapeAppend(prefix, "%");
        EscapeProperties(prefix);
        buffer := buffer + prefix + "%%";
        rest := suffix;
      }
      EscapeProperties(rest);
      buffer := buffer + rest;
    }

    /** `write_char`. */
    method WriteChar(c: char)
      modifies this
      ensures buffer == old(buffer) + Escape([c])
    {
      if c == '%' {
        buffer := buffer + "%%";
      } else {
        buffer := buffer + [c];
      }
    }
  }
}
