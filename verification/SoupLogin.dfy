/** Login fields: space padded text, numbers right-justified in 20 octets. The code reads
    fields as UTF-8 and trims Unicode white space, and so does the model. */
module SoupLogin {
  import opened Octets

  const U64_MAX := 0xFFFF_FFFF_FFFF_FFFF
  const SPACE: octet := 32
  const PLUS: octet := 43
  const ZERO: octet := 48

  // -------------------------------------------------------------------- UTF-8

  predicate Continues(b: octet) {
    0x80 <= b <= 0xBF
  }

  /** Length of the well-formed UTF-8 sequence at the front, zero if there is none: table
      3-7 of the Unicode Standard. */
  function CharWidth(s: Octets): (n: nat)
    ensures n <= |s|
  {
    if s == [] then 0
    else if s[0] < 0x80 then 1
    else if 0xC2 <= s[0] <= 0xDF then
      if |s| >= 2 && Continues(s[1]) then 2 else 0
    else if 0xE0 <= s[0] <= 0xEF then
      if |s| >= 3 && Continues(s[1]) && Continues(s[2])
         && (s[0] == 0xE0 ==> s[1] >= 0xA0) && (s[0] == 0xED ==> s[1] <= 0x9F) then 3 else 0
    else if 0xF0 <= s[0] <= 0xF4 then
      if |s| >= 4 && Continues(s[1]) && Continues(s[2]) && Continues(s[3])
         && (s[0] == 0xF0 ==> s[1] >= 0x90) && (s[0] == 0xF4 ==> s[1] <= 0x8F) then 4 else 0
    else 0
  }

  function CodePoint(s: Octets): nat
    requires 1 <= CharWidth(s) <= |s|
  {
    var n := CharWidth(s);
    if n == 1 then s[0]
    else if n == 2 then (s[0] as int - 0xC0) * 0x40 + (s[1] as int - 0x80)
    else if n == 3 then (s[0] as int - 0xE0) * 0x1000 + (s[1] as int - 0x80) * 0x40 + (s[2] as int - 0x80)
    else (s[0] as int - 0xF0) * 0x4_0000 + (s[1] as int - 0x80) * 0x1000
         + (s[2] as int - 0x80) * 0x40 + (s[3] as int - 0x80)
  }

  /** The characters of a field, `None` when it is not UTF-8. */
  function Utf8(s: Octets): Option<seq<nat>> {
    if s == [] then Some([])
    else if CharWidth(s) == 0 then None
    else
      match Utf8(s[CharWidth(s)..])
      case None => None
      case Some(rest) => Some([CodePoint(s)] + rest)
  }

  predicate Ascii(s: Octets) {
    forall i :: 0 <= i < |s| ==> s[i] < 128
  }

  lemma {:induction false} AsciiIsUtf8(s: Octets)
    requires Ascii(s)
    ensures Utf8(s) == Some(s)
  {
    if s != [] {
      AsciiIsUtf8(s[1..]);
      assert s == [s[0]] + s[1..];
    }
  }

  // ------------------------------------------------------------------- fields

  /** Characters with the Unicode property White_Space. */
  predicate IsSpace(c: nat) {
    || 9 <= c <= 13 || c == SPACE || c == 0x85 || c == 0xA0 || c == 0x1680
    || 0x2000 <= c <= 0x200A || c == 0x2028 || c == 0x2029 || c == 0x202F || c == 0x205F || c == 0x3000
  }

  predicate IsDigit(c: nat) {
    ZERO <= c <= ZERO + 9
  }

  function TrimStart(s: seq<nat>): seq<nat> {
    if s != [] && IsSpace(s[0]) then TrimStart(s[1..]) else s
  }

  function TrimEnd(s: seq<nat>): seq<nat> {
    if s != [] && IsSpace(s[|s| - 1]) then TrimEnd(s[..|s| - 1]) else s
  }

  predicate Digits(s: seq<nat>) {
    forall i :: 0 <= i < |s| ==> IsDigit(s[i])
  }

  function DecimalValue(s: seq<nat>): nat
    requires Digits(s)
  {
    if s == [] then 0 else DecimalValue(s[..|s| - 1]) * 10 + (s[|s| - 1] - ZERO)
  }

  /** A trimmed field as a number: empty is zero, one leading plus is allowed. */
  function ParseNumeric(field: Octets): Result<nat, ()> {
    match Utf8(field)
    case None => Err(())
    case Some(chars) =>
      var s := TrimEnd(TrimStart(chars));
      if s == [] then Ok(0)
      else
        var digits := if s[0] == PLUS then s[1..] else s;
        if digits == [] || !Digits(digits) || DecimalValue(digits) > U64_MAX then Err(())
        else Ok(DecimalValue(digits))
  }

  /** Login Accepted payload: session (10), then sequence (20). */
  function ParseLoginAccepted(payload: Octets): (r: Result<(Octets, nat), ()>)
    ensures r.Ok? ==> |r.value.0| == 10 && r.value.1 <= U64_MAX
  {
    if |payload| < 30 then Err(())
    else
      match ParseNumeric(payload[10..30])
      case Err(e) => Err(e)
      case Ok(sequence) => if Utf8(payload[..10]).Some? then Ok((payload[..10], sequence)) else Err(())
  }

  // ------------------------------------------------------------------ encoding

  function Decimal(n: nat): Octets {
    if n < 10 then [ZERO + n] else Decimal(n / 10) + [ZERO + n % 10]
  }

  function Spaces(n: nat): (s: Octets)
    ensures |s| == n
  {
    seq(n, _ => SPACE)
  }

  /** `s` cut to `width` and padded on the right. */
  function LeftJustified(s: Octets, width: nat): (r: Octets)
    ensures |r| == width
  {
    var kept := if |s| < width then s else s[..width];
    kept + Spaces(width - |kept|)
  }

  /** The tail of `s`, padded on the left to `width`. */
  function RightJustified(s: Octets, width: nat): (r: Octets)
    ensures |r| == width
  {
    var kept := if |s| < width then s else s[|s| - width..];
    Spaces(width - |kept|) + kept
  }

  /** Login request payload: user, password, session, requested sequence. */
  function LoginRequest(user: Octets, password: Octets, session: Octets, sequence: nat): (r: Octets)
    ensures |r| == 46
  {
    LeftJustified(user, 6) + LeftJustified(password, 10) + LeftJustified(session, 10)
    + RightJustified(Decimal(sequence), 20)
  }

  // ---------------------------------------------------------------- round trip

  lemma {:induction false} DecimalDigits(n: nat)
    ensures Decimal(n) != [] && Digits(Decimal(n)) && DecimalValue(Decimal(n)) == n
  {
    var s := Decimal(n);
    if n < 10 {
      assert s[..0] == [];
    } else {
      DecimalDigits(n / 10);
      assert s[..|s| - 1] == Decimal(n / 10);
    }
  }

  lemma {:induction false} DecimalWidth(n: nat, width: nat, bound: nat)
    requires width > 0 && bound == Pow10(width) && n < bound
    ensures |Decimal(n)| <= width
    decreases width
  {
    if n >= 10 {
      DecimalWidth(n / 10, width - 1, Pow10(width - 1));
    }
  }

  function Pow10(width: nat): nat {
    if width == 0 then 1 else 10 * Pow10(width - 1)
  }

  lemma {:induction false} TrimSpaces(pad: nat, s: Octets)
    requires s != [] && !IsSpace(s[0]) && !IsSpace(s[|s| - 1])
    ensures TrimEnd(TrimStart(Spaces(pad) + s)) == s
  {
    var field := Spaces(pad) + s;
    if pad == 0 {
      assert field == s;
    } else {
      TrimSpaces(pad - 1, s);
      assert field[1..] == Spaces(pad - 1) + s;
    }
  }

  lemma TwentyDigits()
    ensures Pow10(20) == 100_000_000_000_000_000_000
  {
    assert Pow10(4) == 10_000;
    assert Pow10(8) == 100_000_000;
    assert Pow10(12) == 1_000_000_000_000;
    assert Pow10(16) == 10_000_000_000_000_000;
  }

  /** The field is spaces and then decimal digits of value `n`. */
  ghost predicate Spells(field: Octets, n: nat) {
    exists pad: nat :: SpellsFrom(field, pad, n)
  }

  ghost predicate SpellsFrom(field: Octets, pad: nat, n: nat) {
    && pad < |field| && (forall i :: 0 <= i < pad ==> field[i] == SPACE)
    && Digits(field[pad..]) && DecimalValue(field[pad..]) == n
  }

  /** A field of spaces and digits is read as its number. */
  lemma SpelledIsRead(field: Octets, n: nat)
    requires Spells(field, n) && n <= U64_MAX
    ensures ParseNumeric(field) == Ok(n)
  {
    hide DecimalValue;
    hide TrimStart;
    hide TrimEnd;
    hide Utf8;
    var pad: nat :| SpellsFrom(field, pad, n);
    var s := field[pad..];
    assert field == Spaces(pad) + s;
    assert IsDigit(s[0]) && IsDigit(s[|s| - 1]);
    TrimSpaces(pad, s);
    AsciiIsUtf8(field);
  }

  /** Every 64-bit sequence is spelled in its 20-octet field. */
  lemma FieldSpells(n: nat)
    requires n <= U64_MAX
    ensures Spells(RightJustified(Decimal(n), 20), n)
  {
    hide Decimal;
    hide DecimalValue;
    hide Pow10;
    DecimalDigits(n);
    TwentyDigits();
    DecimalWidth(n, 20, Pow10(20));
    var (s, field) := (Decimal(n), RightJustified(Decimal(n), 20));
    var pad: nat := 20 - |s|;
    assert |s| == 20 ==> s[0..] == s;
    assert field == Spaces(pad) + s;
    assert field[pad..] == s;
    assert SpellsFrom(field, pad, n);
  }

  /** Every 64-bit sequence survives its 20-octet field. */
  lemma NumericRoundTrip(n: nat)
    requires n <= U64_MAX
    ensures ParseNumeric(RightJustified(Decimal(n), 20)) == Ok(n)
  {
    hide Decimal;
    hide Spells;
    FieldSpells(n);
    SpelledIsRead(RightJustified(Decimal(n), 20), n);
  }

  /** The octets of a field that holds `s`, cut to its width and then spaces. */
  ghost predicate Holds(field: Octets, s: Octets) {
    forall i :: 0 <= i < |field| ==> field[i] == if i < |s| then s[i] else 0x20
  }

  /** The octets of a login request: user, password, session, requested sequence. */
  ghost predicate AsksToLogIn(r: Octets, user: Octets, password: Octets, session: Octets, sequence: nat) {
    && |r| == 46 && Holds(r[..6], user) && Holds(r[6..16], password) && Holds(r[16..26], session)
    && (sequence <= U64_MAX ==> Spells(r[26..46], sequence))
  }

  lemma LoginRequestReads(user: Octets, password: Octets, session: Octets, sequence: nat)
    ensures AsksToLogIn(LoginRequest(user, password, session, sequence), user, password, session, sequence)
  {
    hide Decimal;
    hide Spells;
    var (u, p, c) := (LeftJustified(user, 6), LeftJustified(password, 10), LeftJustified(session, 10));
    JustifiedHolds(user, 6);
    JustifiedHolds(password, 10);
    JustifiedHolds(session, 10);
    if sequence <= U64_MAX {
      FieldSpells(sequence);
    }
    hide LeftJustified;
    hide RightJustified;
    hide Holds;
    var (n, r) := (RightJustified(Decimal(sequence), 20), LoginRequest(user, password, session, sequence));
    assert r[..6] == u && r[6..16] == p && r[16..26] == c && r[26..46] == n;
  }

  lemma JustifiedHolds(s: Octets, width: nat)
    ensures Holds(LeftJustified(s, width), s)
  {
  }

  /** An accepted login written in the protocol's layout is read back. */
  lemma LoginRoundTrip(session: Octets, sequence: nat)
    requires |session| == 10 && Utf8(session).Some? && sequence <= U64_MAX
    ensures ParseLoginAccepted(session + RightJustified(Decimal(sequence), 20)) == Ok((session, sequence))
  {
    NumericRoundTrip(sequence);
    hide ParseNumeric;
    hide RightJustified;
    hide Utf8;
    var payload := session + RightJustified(Decimal(sequence), 20);
    assert payload[..10] == session && payload[10..30] == RightJustified(Decimal(sequence), 20);
  }
}
