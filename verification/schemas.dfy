/**
 * The request schema of the enqueue operation: the field constraints and the two
 * validators that normalise the client's name and the one-letter service code.
 *
 * Characters are restricted to ASCII: whitespace is Python's ASCII whitespace
 * (space, tab, line feed, vertical tab, form feed, carriage return and the
 * separators 0x1C-0x1F) and upper-casing only maps 'a'..'z'.
 */
module Schemas {
  import opened Results

  /** `max_length` of the name field. */
  const MaxNameLength: nat := 20
  /** `max_length` of the service-code field. */
  const MaxCodeLength: nat := 1

  /** Why a request was refused. */
  datatype InputError =
    | NameTooLong     // the raw name exceeds MaxNameLength characters
    | NameBlank       // the name is empty or only whitespace
    | CodeTooLong     // the raw service code exceeds MaxCodeLength characters
    | UnknownCode     // the upper-cased service code is neither "N" nor "P"

  predicate IsSpace(c: char) {
    var n := c as int;
    n == 32 || 9 <= n <= 13 || 28 <= n <= 31
  }

  /** Every character of `s` is whitespace (vacuously true of the empty string). */
  predicate Blank(s: string) {
    forall i :: 0 <= i < |s| ==> IsSpace(s[i])
  }

  /** `s` neither starts nor ends with whitespace. */
  predicate Tight(s: string) {
    |s| > 0 ==> !IsSpace(s[0]) && !IsSpace(s[|s| - 1])
  }

  /** Drops the leading whitespace of `s`. */
  function TrimStart(s: string): (r: string)
    ensures |r| <= |s| && r == s[|s| - |r|..]
    ensures |r| > 0 ==> !IsSpace(r[0])
    ensures forall i :: 0 <= i < |s| - |r| ==> IsSpace(s[i])
  {
    if |s| > 0 && IsSpace(s[0]) then TrimStart(s[1..]) else s
  }

  /** Drops the trailing whitespace of `s`. */
  function TrimEnd(s: string): (r: string)
    ensures |r| <= |s| && r == s[..|r|]
    ensures |r| > 0 ==> !IsSpace(r[|r| - 1])
    ensures forall i :: |r| <= i < |s| ==> IsSpace(s[i])
  {
    if |s| > 0 && IsSpace(s[|s| - 1]) then TrimEnd(s[..|s| - 1]) else s
  }

  /** `r` is what is left of `s` once a blank prefix of length `a` and a blank suffix are cut off. */
  predicate TrimmedAt(s: string, r: string, a: nat) {
    && a + |r| <= |s|
    && r == s[a..a + |r|]
    && Blank(s[..a])
    && Blank(s[a + |r|..])
  }

  /**
   * Python's `str.strip()` on ASCII text: the result is the infix of `s` left once
   * the whitespace at both ends is cut off, so it is empty exactly when `s` is blank.
   */
  function Strip(s: string): (r: string)
    ensures Tight(r)
    ensures exists a :: TrimmedAt(s, r, a)
    ensures r == [] <==> Blank(s)
  {
    StripSlice(s);
    TrimEnd(TrimStart(s))
  }

  /** Where the stripped form sits inside `s`, and why it is empty only for blank `s`. */
  lemma StripSlice(s: string)
    ensures TrimmedAt(s, TrimEnd(TrimStart(s)), |s| - |TrimStart(s)|)
    ensures TrimEnd(TrimStart(s)) == [] <==> Blank(s)
  {
    var t := TrimStart(s);
    var r := TrimEnd(t);
    var k := |s| - |t|;
    assert Blank(s[..k]);
    assert Blank(t[|r|..]);
    TrimmedInfix(s, t, r, k);
    if r != [] {
      assert s[k] == r[0];
    }
  }

  /** Cutting a blank prefix and then a blank suffix leaves a trimmed infix. */
  lemma TrimmedInfix(s: string, t: string, r: string, k: nat)
    requires k <= |s| && t == s[k..] && |r| <= |t| && r == t[..|r|]
    requires Blank(s[..k]) && Blank(t[|r|..])
    ensures TrimmedAt(s, r, k)
    ensures r == [] ==> Blank(s)
  {
    assert s[k + |r|..] == t[|r|..];
    if r == [] {
      assert s == s[..k] + t;
    }
  }

  /** A string that already has no whitespace at its ends is its own stripped form. */
  lemma StripTight(s: string)
    requires Tight(s)
    ensures Strip(s) == s
  {
  }

  /** Stripping twice is stripping once. */
  lemma StripIdempotent(s: string)
    ensures Strip(Strip(s)) == Strip(s)
  {
    StripTight(Strip(s));
  }

  /**
   * `ClienteCreate.nome`: the `max_length` constraint on the raw string, then
   * `validar_nome`, which refuses an empty or whitespace-only name, repeats the
   * length test on the raw string, and returns the stripped name.
   */
  function ValidateName(v: string): (r: Result<string, InputError>)
    ensures r.Success? <==> 0 < |v| <= MaxNameLength && !Blank(v)
    ensures |v| > MaxNameLength ==> r == Failure(NameTooLong)
    ensures |v| <= MaxNameLength && Blank(v) ==> r == Failure(NameBlank)
    ensures r.Success? ==> r.value == Strip(v)
    ensures r.Success? ==> 0 < |r.value| <= MaxNameLength && Tight(r.value)
  {
    if |v| > MaxNameLength then Failure(NameTooLong)
    else if |v| == 0 || |Strip(v)| == 0 then Failure(NameBlank)
    else if |v| > MaxNameLength then Failure(NameTooLong)
    else Success(Strip(v))
  }

  /** An accepted name passes validation again unchanged. */
  lemma ValidateNameIdempotent(v: string)
    requires ValidateName(v).Success?
    ensures ValidateName(ValidateName(v).value) == ValidateName(v)
  {
    var w := ValidateName(v).value;
    StripTight(w);
  }

  /** Python's `str.upper()` on one ASCII character. */
  function UpperChar(c: char): (u: char)
    ensures !('a' <= u <= 'z')
    ensures 'A' <= u <= 'Z' <==> 'A' <= c <= 'Z' || 'a' <= c <= 'z'
    ensures u != c ==> 'a' <= c <= 'z'
  {
    if 'a' <= c <= 'z' then (c as int - 32) as char else c
  }

  /** Python's `str.upper()` on ASCII text. */
  function Upper(s: string): (r: string)
    ensures |r| == |s|
    ensures forall i :: 0 <= i < |r| ==> !('a' <= r[i] <= 'z')
  {
    seq(|s|, i requires 0 <= i < |s| => UpperChar(s[i]))
  }

  /** Upper-casing twice gives what upper-casing once gives. */
  lemma UpperIdempotent(s: string)
    ensures Upper(Upper(s)) == Upper(s)
  {
  }

  /**
   * `ClienteCreate.tipo_atendimento`: the `max_length` constraint on the raw
   * string, then `validar_tipo`, which accepts the code when its upper-case form is
   * "N" or "P" and returns that upper-case form.
   */
  function ValidateCode(v: string): (r: Result<string, InputError>)
    ensures r.Success? <==> v in {"N", "n", "P", "p"}
    ensures |v| > MaxCodeLength ==> r == Failure(CodeTooLong)
    ensures r.Success? ==> r.value == "N" || r.value == "P"
    ensures r.Success? ==> (r.value == "P" <==> v == "P" || v == "p")
  {
    UpperSingle(v);
    if |v| > MaxCodeLength then Failure(CodeTooLong)
    else if Upper(v) != "N" && Upper(v) != "P" then Failure(UnknownCode)
    else Success(Upper(v))
  }

  /** The codes of at most one character whose upper-case form is "N" or "P". */
  lemma UpperSingle(v: string)
    ensures (|v| <= MaxCodeLength && (Upper(v) == "N" || Upper(v) == "P")) <==> v in {"N", "n", "P", "p"}
    ensures |v| <= MaxCodeLength && Upper(v) == "P" <==> v == "P" || v == "p"
  {
    if |v| == 1 {
      assert v == [v[0]];
      assert Upper(v) == [UpperChar(v[0])];
    }
  }

  /** An accepted code passes validation again unchanged. */
  lemma ValidateCodeIdempotent(v: string)
    requires ValidateCode(v).Success?
    ensures ValidateCode(ValidateCode(v).value) == ValidateCode(v)
  {
  }
}
