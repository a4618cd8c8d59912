/** Values shared by every layer of the listing backend: optional values, GUIDs,
    32-bit integers, the .NET string tests the entities and validators rely on,
    the exceptions the domain and the store raise, and a few sequence helpers. */
module Common {

  /** A value that may be absent: C#'s `T?` and `null`. */
  datatype Option<+T> = None | Some(value: T) {
    /** C#'s `x ?? fallback`. */
    function GetOr(fallback: T): T {
      match this
      case Some(v) => v
      case None => fallback
    }
  }

  /** The outcome of a call that may throw: either it returned a value or it raised an exception. */
  datatype Outcome<+T> = Returned(value: T) | Threw(exception: Exception)

  /** A call to a collaborator that is failing with `fault` throws it; otherwise it returns `value`. */
  function Attempt<T>(fault: Option<Exception>, value: T): (r: Outcome<T>)
    ensures fault.Some? <==> r.Threw?
    ensures r.Threw? ==> r.exception == fault.value
    ensures r.Returned? ==> r.value == value
  {
    if fault.Some? then Threw(fault.value) else Returned(value)
  }

  /** The exceptions the core raises or receives from its collaborators. */
  datatype Exception =
    | ArgumentException(text: string, paramName: string)   // also ArgumentOutOfRangeException(paramName, text)
    | DbUpdateException                                    // a write the store refused (a duplicate key, a value too wide for its column)
    | DbUpdateConcurrencyException                         // an update of a row that is no longer stored
    | StoreFault(reason: string)                           // any other failure of the store, carrying its own message
  {
    /** `Exception.Message` as .NET renders it. */
    function Message(): string {
      match this
      case ArgumentException(text, param) => text + " (Parameter '" + param + "')"
      case DbUpdateException => "An error occurred while saving the entity changes. See the inner exception for the details."
      case DbUpdateConcurrencyException =>
        "The database operation was expected to affect 1 row(s), but actually affected 0 row(s); data may have been modified or deleted since entities were loaded."
      case StoreFault(reason) => reason
    }
  }

  // ---------------------------------------------------------------------------
  // Integers

  /** C#'s `int`. */
  newtype int32 = x: int | -0x8000_0000 <= x < 0x8000_0000

  /** Unchecked C# `int` arithmetic: the mathematical value reduced to 32 bits, two's complement. */
  function Wrap32(x: int): (r: int32)
    ensures -0x8000_0000 <= x < 0x8000_0000 ==> r as int == x
    ensures (r as int - x) % 0x1_0000_0000 == 0
  {
    ((x + 0x8000_0000) % 0x1_0000_0000 - 0x8000_0000) as int32
  }

  // ---------------------------------------------------------------------------
  // GUIDs

  const GuidBound: int := 0x1_0000_0000_0000_0000_0000_0000_0000_0000

  /** A GUID, modelled by the 128-bit number that its 32-digit "N" format spells. */
  newtype Guid = n: int | 0 <= n < 0x1_0000_0000_0000_0000_0000_0000_0000_0000

  /** `Guid.Empty`, the default value FluentValidation's NotEmpty rejects. */
  const EmptyGuid: Guid := 0

  /** `guid.ToString("N")`: 32 lower-case hex digits. */
  function GuidN(g: Guid): (s: string)
    ensures |s| == 32
  {
    Hex(g as nat, 32)
  }

  /** `guid.ToString()` (the "D" format, as string interpolation renders it): 8-4-4-4-12 hex digits. */
  function GuidText(g: Guid): (s: string)
    ensures |s| == 36
    ensures s[8] == '-' && s[13] == '-' && s[18] == '-' && s[23] == '-'
  {
    var h := GuidN(g);
    h[..8] + "-" + h[8..12] + "-" + h[12..16] + "-" + h[16..20] + "-" + h[20..]
  }

  // ---------------------------------------------------------------------------
  // Text

  /** `char.IsWhiteSpace`: the Unicode space separators, line and paragraph separators, and U+0009..U+000D, U+0085, U+00A0. */
  predicate IsWhiteSpace(c: char) {
    c == ' ' || ('\t' <= c <= '\r') || c == '\U{85}' || c == '\U{A0}' || c == '\U{1680}'
    || ('\U{2000}' <= c <= '\U{200A}') || c == '\U{2028}' || c == '\U{2029}'
    || c == '\U{202F}' || c == '\U{205F}' || c == '\U{3000}'
  }

  /** `string.IsNullOrWhiteSpace` of a non-null string: empty or white space only. */
  predicate IsBlank(s: string) {
    forall i :: 0 <= i < |s| ==> IsWhiteSpace(s[i])
  }

  /** `string.IsNullOrWhiteSpace` of a nullable string. */
  predicate IsNullOrWhiteSpace(s: Option<string>) {
    s.None? || IsBlank(s.value)
  }

  /** `string.Length`: the number of UTF-16 code units, which counts a character above U+FFFF
      twice. `MaximumLength` rules and `nvarchar(n)` columns both measure this. */
  function Utf16Length(s: string): (n: nat)
    ensures |s| <= n <= 2 * |s|
    ensures (forall i :: 0 <= i < |s| ==> s[i] as int < 0x1_0000) ==> n == |s|
  {
    if |s| == 0 then 0 else (if s[0] as int >= 0x1_0000 then 2 else 1) + Utf16Length(s[1..])
  }

  /** The largest whole amount a SQL Server `decimal(18,2)` column holds: sixteen digits before the point. */
  const MaxDecimal18_2: int := 9_999_999_999_999_999

  /** Whether an amount fits a `decimal(18,2)` column; a larger one overflows when the row is saved. */
  predicate FitsDecimal18_2(x: int) {
    -MaxDecimal18_2 <= x <= MaxDecimal18_2
  }

  /** `haystack.Contains(needle)`: ordinal substring search. */
  predicate Contains(haystack: string, needle: string) {
    exists i :: 0 <= i <= |haystack| - |needle| && OccursAt(haystack, needle, i)
  }

  predicate OccursAt(haystack: string, needle: string, i: int)
    requires 0 <= i <= |haystack| - |needle|
  {
    haystack[i..i + |needle|] == needle
  }

  predicate IsAsciiUpper(c: char) { 'A' <= c <= 'Z' }
  predicate IsAsciiLower(c: char) { 'a' <= c <= 'z' }

  function ToLowerChar(c: char): (r: char)
    ensures !IsAsciiUpper(r)
  {
    if IsAsciiUpper(c) then (c as int + 32) as char else c
  }

  function ToUpperChar(c: char): (r: char)
    ensures !IsAsciiLower(r)
  {
    if IsAsciiLower(c) then (c as int - 32) as char else c
  }

  /** `ToLowerInvariant`, for the ASCII letters. */
  function ToLowerInvariant(s: string): (r: string)
    ensures |r| == |s|
    ensures forall i :: 0 <= i < |r| ==> !IsAsciiUpper(r[i])
    ensures forall i :: 0 <= i < |r| ==> r[i] == s[i] || (IsAsciiUpper(s[i]) && r[i] as int == s[i] as int + 32)
  {
    seq(|s|, i requires 0 <= i < |s| => ToLowerChar(s[i]))
  }

  /** `ToUpper`, for the ASCII letters. */
  function ToUpperInvariant(s: string): (r: string)
    ensures |r| == |s|
    ensures forall i :: 0 <= i < |r| ==> !IsAsciiLower(r[i])
  {
    seq(|s|, i requires 0 <= i < |s| => ToUpperChar(s[i]))
  }

  /** `string.Join(separator, parts)`. */
  function Join(separator: string, parts: seq<string>): string {
    if |parts| == 0 then ""
    else if |parts| == 1 then parts[0]
    else parts[0] + separator + Join(separator, parts[1..])
  }

  // ---------------------------------------------------------------------------
  // Digits

  predicate IsDecimalDigit(c: char) { '0' <= c <= '9' }
  predicate IsHexDigit(c: char) { '0' <= c <= '9' || 'a' <= c <= 'f' || 'A' <= c <= 'F' }

  function Pow(base: nat, e: nat): (r: nat)
    ensures base > 0 ==> r > 0
  {
    if e == 0 then 1 else base * Pow(base, e - 1)
  }

  /** The `width` lowest decimal digits of `n`, most significant first (a zero-padded `{n:D<width>}`). */
  function Digits(n: nat, width: nat): (s: string)
    ensures |s| == width
    ensures forall i :: 0 <= i < |s| ==> IsDecimalDigit(s[i])
  {
    if width == 0 then "" else Digits(n / 10, width - 1) + [('0' as int + n % 10) as char]
  }

  /** The `width` lowest hex digits of `n`, lower case, most significant first. */
  function Hex(n: nat, width: nat): (s: string)
    ensures |s| == width
    ensures forall i :: 0 <= i < |s| ==> IsHexDigit(s[i]) && !IsAsciiUpper(s[i])
  {
    if width == 0 then "" else Hex(n / 16, width - 1) + ["0123456789abcdef"[n % 16]]
  }

  /** Reads a string of decimal digits back as a number. */
  function ParseDigits(s: string): nat
    requires forall i :: 0 <= i < |s| ==> IsDecimalDigit(s[i])
  {
    if |s| == 0 then 0 else 10 * ParseDigits(s[..|s| - 1]) + DigitValue(s[|s| - 1])
  }

  function DigitValue(c: char): nat
    requires IsDecimalDigit(c)
  {
    c as int - '0' as int
  }

  /** Printing a number in `width` digits and reading it back recovers it, when it fits. */
  lemma {:induction false} DigitsRoundTrip(n: nat, width: nat)
    requires n < Pow(10, width)
    ensures ParseDigits(Digits(n, width)) == n
  {
    if width > 0 {
      var s := Digits(n, width);
      assert s[..|s| - 1] == Digits(n / 10, width - 1);
      DigitsRoundTrip(n / 10, width - 1);
    }
  }

  // ---------------------------------------------------------------------------
  // Sequences

  /** LINQ's `Where`: the elements that satisfy `p`, in their order. */
  function Where<T>(s: seq<T>, p: T -> bool): (r: seq<T>)
    ensures |r| <= |s|
    ensures forall i :: 0 <= i < |r| ==> r[i] in s && p(r[i])
    ensures forall i :: 0 <= i < |s| && p(s[i]) ==> s[i] in r
  {
    if |s| == 0 then []
    else if p(s[0]) then [s[0]] + Where(s[1..], p)
    else Where(s[1..], p)
  }

  /** The conjunction of two element predicates. */
  function Both<T>(p: T -> bool, q: T -> bool): T -> bool {
    x => p(x) && q(x)
  }

  /** Two `Where` calls in a row select what one `Where` with the conjunction selects. */
  lemma {:induction false} WhereWhere<T>(s: seq<T>, p: T -> bool, q: T -> bool)
    ensures Where(Where(s, p), q) == Where(s, Both(p, q))
  {
    if |s| > 0 {
      WhereWhere(s[1..], p, q);
      if p(s[0]) {
        assert Where(s, p) == [s[0]] + Where(s[1..], p);
        assert ([s[0]] + Where(s[1..], p))[1..] == Where(s[1..], p);
      }
    }
  }

  /** `Where` only looks at the predicate on the elements of the sequence. */
  lemma {:induction false} WhereCongruent<T>(s: seq<T>, p: T -> bool, q: T -> bool)
    requires forall i :: 0 <= i < |s| ==> p(s[i]) == q(s[i])
    ensures Where(s, p) == Where(s, q)
  {
    if |s| > 0 {
      WhereCongruent(s[1..], p, q);
    }
  }

  /** A `Where` whose predicate holds of every element keeps the whole sequence. */
  lemma {:induction false} WhereAll<T>(s: seq<T>, p: T -> bool)
    requires forall i :: 0 <= i < |s| ==> p(s[i])
    ensures Where(s, p) == s
  {
    if |s| > 0 {
      WhereAll(s[1..], p);
    }
  }

  /** LINQ's `Skip`: a count at or below zero skips nothing. */
  function Skip<T>(s: seq<T>, n: int): (r: seq<T>)
    ensures |r| == if n <= 0 then |s| else if n >= |s| then 0 else |s| - n
    ensures forall i :: 0 <= i < |r| ==> r[i] == s[i + (if n <= 0 then 0 else n)]
  {
    if n <= 0 then s else if n >= |s| then [] else s[n..]
  }

  /** LINQ's `Take`: a count at or below zero takes nothing. */
  function Take<T>(s: seq<T>, n: int): (r: seq<T>)
    ensures |r| == if n <= 0 then 0 else if n >= |s| then |s| else n
    ensures forall i :: 0 <= i < |r| ==> r[i] == s[i]
  {
    if n <= 0 then [] else if n >= |s| then s else s[..n]
  }
}
