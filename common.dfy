/** Shared vocabulary of the platform's server: optional values (C#'s null),
    HTTP result statuses, .NET time units and the two notions of "white space"
    the code relies on (.NET's char.IsWhiteSpace and JavaScript's \s). */
module Common {

  /** A value that may be null in the source. */
  datatype Option<T> = None | Some(value: T)

  /** The HTTP results the handlers return, collapsed to their status.
      ServerError stands for an unhandled exception (ASP.NET answers 500). */
  datatype Status =
    | Ok
    | Created
    | NoContent
    | NotFound
    | UnprocessableEntity
    | Unauthorized
    | Forbidden
    | ServerError

  /** .NET ticks are 100-nanosecond units (DateTime, TimeSpan). */
  const TicksPerSecond: int := 10_000_000
  const TicksPerMinute: int := 60 * TicksPerSecond
  const TicksPerHour: int := 60 * TicksPerMinute
  const TicksPerDay: int := 24 * TicksPerHour

  /** C#'s `/` on integers: the quotient is truncated toward zero. */
  function TruncDiv(a: int, b: int): (q: int)
    requires b > 0
    ensures a >= 0 ==> q >= 0
    ensures a <= 0 ==> q <= 0
    ensures (if a >= 0 then a else -a) - b < b * (if q >= 0 then q else -q) <= (if a >= 0 then a else -a)
  {
    if a >= 0 then a / b else -((-a) / b)
  }

  /** C#'s `%` on integers: the remainder takes the sign of the dividend. */
  function TruncMod(a: int, b: int): (r: int)
    requires b > 0
    ensures a >= 0 ==> 0 <= r < b
    ensures a <= 0 ==> -b < r <= 0
    ensures a == b * TruncDiv(a, b) + r
  {
    a - b * TruncDiv(a, b)
  }

  /** .NET's char.IsWhiteSpace: the Unicode space separators (Zs), the line and
      paragraph separators, and the controls U+0009..U+000D and U+0085. */
  predicate IsDotNetWhiteSpace(c: char)
  {
    || ('\U{0009}' <= c <= '\U{000D}')
    || c == ' ' || c == '\U{0085}' || c == '\U{00A0}' || c == '\U{1680}'
    || ('\U{2000}' <= c <= '\U{200A}')
    || c == '\U{2028}' || c == '\U{2029}' || c == '\U{202F}' || c == '\U{205F}' || c == '\U{3000}'
  }

  /** JavaScript's regular-expression class \s: like .NET's, but with U+FEFF
      and without U+0085. */
  predicate IsJsWhiteSpace(c: char)
  {
    || ('\U{0009}' <= c <= '\U{000D}')
    || c == ' ' || c == '\U{00A0}' || c == '\U{1680}'
    || ('\U{2000}' <= c <= '\U{200A}')
    || c == '\U{2028}' || c == '\U{2029}' || c == '\U{202F}' || c == '\U{205F}' || c == '\U{3000}'
    || c == '\U{FEFF}'
  }

  /** string.IsNullOrWhiteSpace. */
  predicate IsNullOrWhiteSpace(s: Option<string>)
  {
    s.None? || forall i | 0 <= i < |s.value| :: IsDotNetWhiteSpace(s.value[i])
  }

  /** The position of the first occurrence of c in s (JavaScript's
      indexOf, with None for -1). */
  function IndexOf(s: string, c: char): (r: Option<nat>)
    ensures r.None? <==> c !in s
    ensures r.Some? ==> r.value < |s| && s[r.value] == c && c !in s[..r.value]
  {
    if |s| == 0 then None
    else if s[0] == c then Some(0)
    else
      match IndexOf(s[1..], c)
      case None => None
      case Some(i) =>
        assert s[..i + 1] == [s[0]] + s[1..][..i];
        Some(i + 1)
  }
}
