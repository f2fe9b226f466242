/**
 * Dotted-decimal addresses, as inet_pton takes them (section 6.3 of RFC 3493):
 * the parser against the canonical text of an address.
 */
module Ipv4 {
  import opened Wrappers
  import opened Words

  // -------------------------------------------------------- the canonical text

  function Digit(d: nat): char
    requires d < 10
  {
    '0' + d as char
  }

  /** A number without leading zeros. */
  function Decimal(n: nat): string {
    if n < 10 then [Digit(n)] else Decimal(n / 10) + [Digit(n % 10)]
  }

  /** Parts with dots between them, and one behind them unless the last part may go on. */
  function Dotted(parts: seq<nat>, hasDigit: bool): string
    decreases |parts|, !hasDigit
  {
    if parts == [] then ""
    else if hasDigit then Dotted(parts[..|parts| - 1], false) + Decimal(parts[|parts| - 1])
    else Dotted(parts, true) + "."
  }

  /** The four bytes of an address, the highest first. */
  function Parts(address: U32): seq<nat> {
    [address / 256 / 256 / 256, address / 256 / 256 % 256, address / 256 % 256, address % 256]
  }

  function Format(address: U32): string { Dotted(Parts(address), true) }

  // ---------------------------------------------------------------- the scanner

  datatype State = Invalid | Scanning(parts: seq<nat>, hasDigit: bool)

  function Step(s: State, c: char): State {
    if s.Invalid? then Invalid
    else if '0' <= c <= '9' then
      var d := c as int - '0' as int;
      if !s.hasDigit then (if |s.parts| < 4 then Scanning(s.parts + [d], true) else Invalid)
      else if s.parts == [] || s.parts[|s.parts| - 1] == 0 then Invalid
      else
        var n := |s.parts| - 1;
        var value := s.parts[n] * 10 + d;
        if value <= 255 then Scanning(s.parts[n := value], true) else Invalid
    else if c == '.' && s.hasDigit && |s.parts| < 4 then Scanning(s.parts, false)
    else Invalid
  }

  function Scan(text: string): State {
    if text == "" then Scanning([], false) else Step(Scan(text[..|text| - 1]), text[|text| - 1])
  }

  predicate Sane(parts: seq<nat>, hasDigit: bool) {
    && |parts| <= 4
    && (forall i :: 0 <= i < |parts| ==> parts[i] <= 255)
    && (hasDigit ==> parts != [])
    && (!hasDigit ==> |parts| < 4)
  }

  /** The scanner's only texts are canonical. */
  lemma {:induction false} ScannedIsCanonical(text: string)
    requires Scan(text).Scanning?
    ensures Sane(Scan(text).parts, Scan(text).hasDigit)
    ensures text == Dotted(Scan(text).parts, Scan(text).hasDigit)
  {
    if text != "" {
      var front, c := text[..|text| - 1], text[|text| - 1];
      assert text == front + [c];
      ScanNext(front, c);
      ScannedIsCanonical(front);
      StepIsCanonical(Scan(front).parts, Scan(front).hasDigit, c);
    }
  }

  lemma StepIsCanonical(parts: seq<nat>, hasDigit: bool, c: char)
    requires Sane(parts, hasDigit) && Step(Scanning(parts, hasDigit), c).Scanning?
    ensures var s := Step(Scanning(parts, hasDigit), c);
            Sane(s.parts, s.hasDigit) && Dotted(s.parts, s.hasDigit) == Dotted(parts, hasDigit) + [c]
  {
    if '0' <= c <= '9' {
      var d := c as int - '0' as int;
      assert Digit(d) == c;
      if hasDigit {
        MoreDigits(parts, d);
      } else {
        DottedPart(parts, d);
      }
    }
  }

  lemma MoreDigits(parts: seq<nat>, d: nat)
    requires parts != [] && d < 10 && parts[|parts| - 1] != 0
    ensures var n := |parts| - 1; Dotted(parts[n := parts[n] * 10 + d], true) == Dotted(parts, true) + [Digit(d)]
  {
    var n := |parts| - 1;
    var before, value := parts[..n], parts[n] * 10 + d;
    LastPartGrows(before, parts[n], d);
    assert parts[n := value] == before + [value] && parts == before + [parts[n]];
  }

  lemma LastPartGrows(before: seq<nat>, part: nat, d: nat)
    requires 0 < part && d < 10
    ensures Dotted(before + [part * 10 + d], true) == Dotted(before + [part], true) + [Digit(d)]
  {
    DottedPart(before, part);
    DottedPart(before, part * 10 + d);
    assert (part * 10 + d) / 10 == part && (part * 10 + d) % 10 == d;
  }

  lemma {:induction false} ScanDecimal(text: string, parts: seq<nat>, n: nat)
    requires Scan(text) == Scanning(parts, false) && |parts| < 4 && n <= 255
    ensures Scan(text + Decimal(n)) == Scanning(parts + [n], true)
  {
    if n < 10 {
      ScanNext(text, Digit(n));
    } else {
      var shorter := text + Decimal(n / 10);
      ScanDecimal(text, parts, n / 10);
      assert text + Decimal(n) == shorter + [Digit(n % 10)];
      ScanNext(shorter, Digit(n % 10));
      DigitExtends(parts, n);
    }
  }

  lemma DigitExtends(parts: seq<nat>, n: nat)
    requires 10 <= n <= 255
    ensures Step(Scanning(parts + [n / 10], true), Digit(n % 10)) == Scanning(parts + [n], true)
  {
    assert (parts + [n / 10])[|parts| := n] == parts + [n];
    assert n / 10 * 10 + n % 10 == n;
  }

  lemma ScanNext(text: string, c: char)
    ensures Scan(text + [c]) == Step(Scan(text), c)
  {
    assert (text + [c])[..|text|] == text;
  }

  /** And it takes every canonical text. */
  lemma {:induction false} CanonicalIsScanned(parts: seq<nat>, hasDigit: bool)
    requires Sane(parts, hasDigit)
    ensures Scan(Dotted(parts, hasDigit)) == Scanning(parts, hasDigit)
    decreases |parts|, !hasDigit
  {
    if parts != [] {
      if hasDigit {
        var before, n := parts[..|parts| - 1], parts[|parts| - 1];
        CanonicalIsScanned(before, false);
        PartIsScanned(before, n);
        assert parts == before + [n];
      } else {
        CanonicalIsScanned(parts, true);
        DotIsScanned(parts);
      }
    }
  }

  lemma DottedPart(before: seq<nat>, n: nat)
    ensures Dotted(before + [n], true) == Dotted(before, false) + Decimal(n)
  {
    assert (before + [n])[..|before|] == before;
  }

  lemma PartIsScanned(before: seq<nat>, n: nat)
    requires |before| < 4 && n <= 255 && Scan(Dotted(before, false)) == Scanning(before, false)
    ensures Scan(Dotted(before + [n], true)) == Scanning(before + [n], true)
  {
    DottedPart(before, n);
    ScanDecimal(Dotted(before, false), before, n);
  }

  lemma DotIsScanned(parts: seq<nat>)
    requires parts != [] && |parts| < 4 && Scan(Dotted(parts, true)) == Scanning(parts, true)
    ensures Scan(Dotted(parts, false)) == Scanning(parts, false)
  {
    ScanNext(Dotted(parts, true), '.');
    assert Dotted(parts, true) + ['.'] == Dotted(parts, false);
  }

  lemma {:induction false} InvalidStays(text: string, k: nat)
    requires k <= |text| && Scan(text[..k]).Invalid?
    ensures Scan(text).Invalid?
    decreases |text| - k
  {
    if k == |text| {
      assert text[..k] == text;
    } else {
      assert text[..k + 1][..k] == text[..k];
      InvalidStays(text, k + 1);
    }
  }

  // ----------------------------------------------------------------- the parser

  function Compose(parts: seq<nat>): (r: U32)
    requires |parts| == 4 && forall i :: 0 <= i < 4 ==> parts[i] <= 255
  {
    parts[0] * 0x100_0000 + parts[1] * 0x1_0000 + parts[2] * 0x100 + parts[3]
  }

  lemma AppendByte(x: nat, b: nat)
    requires b < 256
    ensures (x * 256 + b) / 256 == x && (x * 256 + b) % 256 == b
  {
  }

  lemma PartsOfCompose(parts: seq<nat>)
    requires |parts| == 4 && forall i :: 0 <= i < 4 ==> parts[i] <= 255
    ensures Parts(Compose(parts)) == parts
  {
    var two := parts[0] * 256 + parts[1];
    var three := two * 256 + parts[2];
    assert Compose(parts) == three * 256 + parts[3];
    AppendByte(three, parts[3]);
    AppendByte(two, parts[2]);
    AppendByte(parts[0], parts[1]);
  }

  /** The first number is the highest byte. */
  lemma FormatMeaning(address: U32, a: nat, b: nat, c: nat, d: nat)
    requires a < 256 && b < 256 && c < 256 && d < 256
    requires address == a * 0x100_0000 + b * 0x1_0000 + c * 0x100 + d
    ensures Format(address) == Decimal(a) + "." + Decimal(b) + "." + Decimal(c) + "." + Decimal(d)
  {
    assert Parts(address) == [a, b, c, d] by { PartsOfCompose([a, b, c, d]); }
    FourParts(a, b, c, d);
  }

  lemma FourParts(a: nat, b: nat, c: nat, d: nat)
    ensures Dotted([a, b, c, d], true) == Decimal(a) + "." + Decimal(b) + "." + Decimal(c) + "." + Decimal(d)
  {
    TwoParts(a, b);
    NextPart([a, b], c);
    NextPart([a, b, c], d);
    assert [a, b] + [c] == [a, b, c] && [a, b, c] + [d] == [a, b, c, d];
  }

  lemma TwoParts(a: nat, b: nat)
    ensures Dotted([a, b], true) == Decimal(a) + "." + Decimal(b)
  {
    var none: seq<nat> := [];
    DottedPart(none, a);
    NextPart([a], b);
    assert none + [a] == [a] && [a] + [b] == [a, b];
  }

  lemma NextPart(before: seq<nat>, n: nat)
    requires before != []
    ensures Dotted(before + [n], true) == Dotted(before, true) + "." + Decimal(n)
  {
    DottedPart(before, n);
  }

  /** What the parser answers, by the scanner's last state. */
  function Answer(s: State): Option<U32> {
    if s.Scanning? && s.hasDigit && Sane(s.parts, true) && |s.parts| == 4 then Some(Compose(s.parts)) else None
  }

  /** The parser's loop. */
  method ScanText(text: string) returns (parts: array<nat>, numParts: nat, hasDigit: bool, isValid: bool)
    ensures fresh(parts) && Matches(parts[..], numParts, hasDigit, isValid, Scan(text))
  {
    parts := new nat[4](_ => 0);
    numParts, hasDigit, isValid := 0, false, true;
    var index := 0;
    while isValid && index < |text|
      invariant 0 <= index <= |text|
      invariant Matches(parts[..], numParts, hasDigit, isValid, Scan(text[..index]))
    {
      var character := text[index];
      ghost var before, s := parts[..], Scan(text[..index]);
      assert text[..index + 1] == text[..index] + [character];
      ScanNext(text[..index], character);
      if '0' <= character <= '9' {
        DigitStep(before, numParts, hasDigit, s, character);
        var startsPart := !hasDigit;
        isValid := if startsPart then numParts < 4 else parts[numParts - 1] != 0;
        if isValid {
          numParts := numParts + (if startsPart then 1 else 0);
          var value := parts[numParts - 1] * 10 + (character as int - '0' as int);
          isValid := value <= 255;
          parts[numParts - 1] := value;
          hasDigit := true;
          assert parts[..] == before[numParts - 1 := value];
        }
      } else {
        isValid := character == '.' && hasDigit && numParts < 4;
        hasDigit := false;
      }
      index := index + 1;
    }
    if isValid { assert text[..index] == text; } else { InvalidStays(text, index); }
  }

  /**
   * The parser accepts a text exactly when it is the canonical text of an
   * address, and answers that address. The shifted parts share no bits, so
   * joining them is adding them.
   */
  method ParseIpv4(text: string) returns (address: Option<U32>)
    ensures address.Some? ==> text == Format(address.value)
    ensures forall a: U32 :: text == Format(a) ==> address == Some(a)
  {
    var parts, numParts, hasDigit, isValid := ScanText(text);
    AnswerIsInverse(text);
    address := None;
    if isValid && numParts == 4 && hasDigit {
      assert parts[..4] == parts[..];
      ScannedIsCanonical(text);
      address := Some(Compose(parts[..]));
    }
  }

  /** The parser's variables hold the scanner's state: parts behind the last one are still zero. */
  ghost predicate Matches(parts: seq<nat>, numParts: nat, hasDigit: bool, isValid: bool, s: State)
  {
    if isValid then
      && |parts| == 4 && numParts <= 4 && (hasDigit ==> numParts > 0)
      && (forall i :: numParts <= i < 4 ==> parts[i] == 0)
      && s == Scanning(parts[..numParts], hasDigit)
    else s.Invalid? && |parts| == 4
  }

  lemma DigitStep(parts: seq<nat>, numParts: nat, hasDigit: bool, s: State, c: char)
    requires Matches(parts, numParts, hasDigit, true, s) && '0' <= c <= '9'
    ensures if (if hasDigit then parts[numParts - 1] != 0 else numParts < 4) then
              var n := if hasDigit then numParts else numParts + 1;
              var value := parts[n - 1] * 10 + (c as int - '0' as int);
              Matches(parts[n - 1 := value], n, true, value <= 255, Step(s, c))
            else Step(s, c).Invalid?
  {
    if hasDigit {
      var n := numParts - 1;
      var value := parts[n] * 10 + (c as int - '0' as int);
      assert parts[..numParts][n := value] == parts[n := value][..numParts];
    } else if numParts < 4 {
      var value := c as int - '0' as int;
      assert parts[..numParts] + [value] == parts[numParts := value][..numParts + 1];
    }
  }

  lemma AnswerIsInverse(text: string)
    ensures Answer(Scan(text)).Some? ==> text == Format(Answer(Scan(text)).value)
    ensures forall a: U32 :: text == Format(a) ==> Answer(Scan(text)) == Some(a)
  {
    if Answer(Scan(text)).Some? {
      ScannedIsCanonical(text);
      PartsOfCompose(Scan(text).parts);
    }
    forall a: U32 | text == Format(a) ensures Answer(Scan(text)) == Some(a) {
      PartsSane(a);
      CanonicalIsScanned(Parts(a), true);
      PartsOfCompose(Parts(a));
      PartsInjective(a, Compose(Parts(a)));
    }
  }

  lemma PartsSane(a: U32)
    ensures Sane(Parts(a), true)
  {
  }

  lemma PartsInjective(a: U32, b: U32)
    requires Parts(a) == Parts(b)
    ensures a == b
  {
    var p, q := Parts(a), Parts(b);
    assert p[0] == q[0] && p[1] == q[1] && p[2] == q[2] && p[3] == q[3];
    assert a / 256 / 256 == b / 256 / 256;
    assert a / 256 == b / 256;
  }

  /** Two addresses never share a text. */
  lemma FormatInjective(a: U32, b: U32)
    requires Format(a) == Format(b)
    ensures a == b
  {
    AnswerIsInverse(Format(a));
  }
}
