/**
 * Base64 as section 4 of RFC 4648 defines it: the decoder's sixteen-bit
 * accumulator against one unbounded string of bits, and the encoder it
 * inverts.
 */
module Base64 {
  import opened Wrappers

  type Byte = b: int | 0 <= b < 256
  type Sextet = s: int | 0 <= s < 64

  // ------------------------------------------------------------ the alphabet

  function ToSextet(c: char): Option<Sextet> {
    if 'A' <= c <= 'Z' then Some(c as int - 'A' as int)
    else if 'a' <= c <= 'z' then Some(c as int - 'a' as int + 26)
    else if '0' <= c <= '9' then Some(c as int - '0' as int + 52)
    else if c == '+' then Some(62)
    else if c == '/' then Some(63)
    else None
  }

  function ToChar(s: Sextet): (c: char)
    ensures ToSextet(c) == Some(s)
  {
    if s < 26 then 'A' + s as char
    else if s < 52 then 'a' + (s - 26) as char
    else if s < 62 then '0' + (s - 52) as char
    else if s == 62 then '+'
    else '/'
  }

  predicate IsSpace(c: char) { c == ' ' || c == '\t' || c == '\r' || c == '\n' }

  // ----------------------------------------------- what a text stands for

  /** The characters other than white space. */
  function Strip(text: string): string {
    if text == "" then ""
    else
      var front, last := Strip(text[..|text| - 1]), text[|text| - 1];
      if IsSpace(last) then front else front + [last]
  }

  /** Characters of the alphabet and after them nothing but padding. */
  ghost predicate WellFormed(stripped: string) {
    && (forall i :: 0 <= i < |stripped| ==> stripped[i] == '=' || ToSextet(stripped[i]).Some?)
    && (forall i, j :: 0 <= i < j < |stripped| && stripped[i] == '=' ==> stripped[j] == '=')
  }

  function Sextets(stripped: string): seq<Sextet> {
    if stripped == "" then []
    else
      var front, last := Sextets(stripped[..|stripped| - 1]), ToSextet(stripped[|stripped| - 1]);
      if last.Some? then front + [last.value] else front
  }

  // ------------------------------------------------------------------- bits

  /** `x` with `k` zero bits behind it. */
  function Scale(x: nat, k: nat): (r: nat)
    ensures x > 0 ==> r > 0
  {
    if k == 0 then x else 2 * Scale(x, k - 1)
  }

  /** The number that bits stand for, the highest first. */
  function Value(bits: seq<bool>): (r: nat)
    ensures r < Scale(1, |bits|)
  {
    if bits == [] then 0
    else 2 * Value(bits[..|bits| - 1]) + if bits[|bits| - 1] then 1 else 0
  }

  /** The lowest `k` bits of a number. */
  function ToBits(x: nat, k: nat): (r: seq<bool>)
    ensures |r| == k
  {
    if k == 0 then [] else ToBits(x / 2, k - 1) + [x % 2 == 1]
  }

  /** All bits of the sextets, one behind the other. */
  function Bits(sextets: seq<Sextet>): (r: seq<bool>)
    ensures |r| == 6 * |sextets|
  {
    if sextets == [] then []
    else Bits(sextets[..|sextets| - 1]) + ToBits(sextets[|sextets| - 1], 6)
  }

  function Octet(bits: seq<bool>, k: nat): Byte
    requires 8 * (k + 1) <= |bits|
  {
    ScaleSmall(1);
    Value(bits[8 * k..8 * k + 8])
  }

  /** The bits cut into eights from the front; a rest of less than eight is dropped. */
  function Octets(bits: seq<bool>): (r: seq<Byte>)
    ensures |r| == |bits| / 8
    ensures forall k: nat :: k < |r| ==> r[k] == Octet(bits, k)
  {
    seq(|bits| / 8, k requires 0 <= k < |bits| / 8 => Octet(bits, k))
  }

  /** What a text decodes to, by its bits alone. */
  ghost function Decoded(text: string): Option<seq<Byte>> {
    if WellFormed(Strip(text)) then Some(Octets(Bits(Sextets(Strip(text))))) else None
  }

  lemma ScaleSmall(x: nat)
    ensures Scale(x, 6) == 64 * x && Scale(x, 8) == 256 * x && Scale(x, 16) == 0x10000 * x
  {
    Scale4(x);
    assert Scale(x, 6) == 2 * Scale(x, 5);
    assert Scale(x, 8) == 2 * Scale(x, 7) == 4 * Scale(x, 6);
    assert Scale(x, 12) == 2 * Scale(x, 11) == 4 * Scale(x, 10) == 8 * Scale(x, 9) == 16 * Scale(x, 8);
    assert Scale(x, 16) == 2 * Scale(x, 15) == 4 * Scale(x, 14) == 8 * Scale(x, 13) == 16 * Scale(x, 12);
  }

  lemma Scale4(x: nat)
    ensures Scale(x, 4) == 16 * x
  {
    assert Scale(x, 2) == 2 * Scale(x, 1);
    assert Scale(x, 4) == 2 * Scale(x, 3);
  }

  lemma {:induction false} ValueOfJoined(a: seq<bool>, b: seq<bool>)
    ensures Value(a + b) == Scale(Value(a), |b|) + Value(b)
  {
    if b == [] {
      assert a + b == a;
    } else {
      var n := |b| - 1;
      ValueOfJoined(a, b[..n]);
      assert (a + b)[..|a| + n] == a + b[..n];
    }
  }

  lemma {:induction false} ValueOfToBits(x: nat, k: nat)
    requires x < Scale(1, k)
    ensures Value(ToBits(x, k)) == x
  {
    if k > 0 {
      ValueOfToBits(x / 2, k - 1);
      assert ToBits(x, k)[..k - 1] == ToBits(x / 2, k - 1);
    }
  }

  lemma {:induction false} ToBitsOfValue(bits: seq<bool>)
    ensures ToBits(Value(bits), |bits|) == bits
  {
    if bits != [] {
      ToBitsOfValue(bits[..|bits| - 1]);
    }
  }

  function ShiftRight(x: nat, n: nat): nat {
    if n == 0 then x else ShiftRight(x / 2, n - 1)
  }

  /** Shifting drops bits from the end. */
  lemma {:induction false} ShiftDrops(bits: seq<bool>, n: nat)
    requires n <= |bits|
    ensures ShiftRight(Value(bits), n) == Value(bits[..|bits| - n])
    decreases n
  {
    if n == 0 {
      assert bits[..|bits|] == bits;
    } else {
      var front := bits[..|bits| - 1];
      ShiftDrops(front, n - 1);
      assert front[..|front| - (n - 1)] == bits[..|bits| - n];
      assert Value(bits) / 2 == Value(front);
    }
  }

  function Last(bits: seq<bool>, k: nat): (r: seq<bool>)
    ensures |r| <= k
  {
    if |bits| <= k then bits else bits[|bits| - k..]
  }

  lemma SplitValue(bits: seq<bool>, k: nat)
    ensures exists high: nat :: Value(bits) == Scale(high, k) + Value(Last(bits, k))
    ensures Value(Last(bits, k)) < Scale(1, k)
  {
    SmallValue(Last(bits, k), k);
    if |bits| <= k {
      ScaleZero(k);
      assert Value(bits) == Scale(0, k) + Value(Last(bits, k));
    } else {
      var front, last := bits[..|bits| - k], bits[|bits| - k..];
      assert bits == front + last;
      ValueOfJoined(front, last);
    }
  }

  lemma {:induction false} ScaleZero(k: nat)
    ensures Scale(0, k) == 0
  {
    if k > 0 {
      ScaleZero(k - 1);
    }
  }

  /** A mask keeps bits from the end. */
  lemma MaskByte(bits: seq<bool>)
    ensures Value(bits) % 256 == Value(Last(bits, 8))
  {
    SplitValue(bits, 8);
    var high: nat :| Value(bits) == Scale(high, 8) + Value(Last(bits, 8));
    ScaleSmall(high);
    ScaleSmall(1);
  }

  lemma MaskWord(bits: seq<bool>)
    ensures Value(bits) % 0x10000 == Value(Last(bits, 16))
  {
    SplitValue(bits, 16);
    var low := Value(Last(bits, 16));
    var high: nat :| Value(bits) == Scale(high, 16) + low;
    ScaleSmall(high);
    ScaleSmall(1);
    WordRemainder(high, low);
  }

  lemma WordRemainder(high: nat, low: nat)
    requires low < 0x10000
    ensures (0x10000 * high + low) % 0x10000 == low
  {
  }

  lemma {:induction false} SmallValue(bits: seq<bool>, k: nat)
    requires |bits| <= k
    ensures Value(bits) < Scale(1, k)
  {
    if |bits| < k {
      SmallValue(bits, k - 1);
    }
  }

  // --------------------------------------------------------------- the decoder

  /** Eight bits of a number, above its lowest `below` ones. */
  function ByteAt(x: nat, below: nat): Byte {
    ShiftRight(x, below) % 256
  }

  /**
   * The decoder takes in a sextet. `& 0xFFFF` is a remainder and `| sextet` a
   * sum, since the shift has cleared the six bits the sextet fills.
   */
  method Accept(ghost stripped: string, bytes: seq<Byte>, accumulated: nat, numBits: nat, character: char, sextet: Sextet)
    returns (bytes': seq<Byte>, accumulated': nat, numBits': nat)
    requires ToSextet(character) == Some(sextet) && State(stripped, bytes, accumulated, numBits, false)
    ensures State(stripped + [character], bytes', accumulated', numBits', false)
  {
    var sextets := Sextets(stripped);
    assert (stripped + [character])[..|stripped|] == stripped;
    assert (sextets + [sextet])[..|sextets|] == sextets;
    HoldsStep(Bits(sextets), bytes, accumulated, numBits, sextet);
    bytes' := bytes;
    accumulated' := (accumulated * 64 + sextet) % 0x10000;
    numBits' := numBits + 6;
    if numBits' >= 8 {
      numBits' := numBits' - 8;
      bytes' := bytes' + [ByteAt(accumulated', numBits')];
    }
  }

  method DecodeBase64(text: string) returns (r: Option<seq<Byte>>)
    ensures r == Decoded(text)
  {
    var bytes: seq<Byte> := [];
    var accumulated: nat, numBits: nat := 0, 0;
    var hasPadding, isValid := false, true;
    var index := 0;
    while isValid && index < |text|
      invariant 0 <= index <= |text|
      invariant isValid <==> WellFormed(Strip(text[..index]))
      invariant isValid ==> State(Strip(text[..index]), bytes, accumulated, numBits, hasPadding)
    {
      var character := text[index];
      ghost var before := Strip(text[..index]);
      StripStep(text, index);
      if character == '=' {
        PaddedWellFormed(before);
        PaddingIsNoSextet(before);
        assert before + [character] == before + "=";
        hasPadding := true;
      } else if !IsSpace(character) {
        var sextet := ToSextet(character);
        isValid := !hasPadding && sextet.Some?;
        StaysWellFormed(before, character);
        if isValid {
          bytes, accumulated, numBits := Accept(before, bytes, accumulated, numBits, character, sextet.value);
        }
      }
      index := index + 1;
    }
    if isValid {
      assert text[..index] == text;
      return Some(bytes);
    }
    IllFormedStays(text, index);
    return None;
  }

  lemma StripStep(text: string, index: nat)
    requires index < |text|
    ensures Strip(text[..index + 1]) == if IsSpace(text[index]) then Strip(text[..index]) else Strip(text[..index]) + [text[index]]
  {
    assert text[..index + 1][..index] == text[..index];
  }

  /** What the decoder's variables are after the characters in `stripped`. */
  ghost predicate State(stripped: string, bytes: seq<Byte>, accumulated: nat, numBits: nat, hasPadding: bool) {
    && (hasPadding <==> '=' in stripped)
    && Holds(Bits(Sextets(stripped)), bytes, accumulated, numBits)
  }

  /** All whole bytes are written and the accumulator has the last sixteen bits, which is all the next byte needs. */
  ghost predicate Holds(bits: seq<bool>, bytes: seq<Byte>, accumulated: nat, numBits: nat) {
    && numBits < 8
    && |bits| == 8 * |bytes| + numBits
    && accumulated == Value(Last(bits, 16))
    && bytes == Octets(bits)
  }

  lemma MaskedStep(bits: seq<bool>, accumulated: nat, s: Sextet)
    requires accumulated == Value(Last(bits, 16))
    ensures (accumulated * 64 + s) % 0x10000 == Value(Last(bits + ToBits(s, 6), 16))
  {
    var six, kept := ToBits(s, 6), Last(bits, 16);
    ScaleSmall(1);
    ValueOfToBits(s, 6);
    ValueOfJoined(kept, six);
    ScaleSmall(accumulated);
    MaskWord(kept + six);
    assert Last(kept + six, 16) == Last(bits + six, 16);
  }

  lemma NextByte(bits: seq<bool>, k: nat, below: nat)
    requires |bits| == 8 * (k + 1) + below && below <= 8
    ensures ByteAt(Value(Last(bits, 16)), below) == Octet(bits, k)
  {
    var kept := Last(bits, 16);
    ShiftDrops(kept, below);
    var rest := kept[..|kept| - below];
    MaskByte(rest);
    var end := |bits| - below;
    assert rest == bits[|bits| - |kept|..end];
    assert Last(rest, 8) == bits[end - 8..end] == bits[8 * k..8 * k + 8];
  }

  lemma SameOctets(bits: seq<bool>, more: seq<bool>, k: nat)
    requires 8 * (k + 1) <= |bits|
    ensures Octet(bits + more, k) == Octet(bits, k)
  {
    assert (bits + more)[8 * k..8 * k + 8] == bits[8 * k..8 * k + 8];
  }

  lemma HoldsStep(bits: seq<bool>, bytes: seq<Byte>, accumulated: nat, numBits: nat, s: Sextet)
    requires Holds(bits, bytes, accumulated, numBits)
    ensures var acc := (accumulated * 64 + s) % 0x10000; var bits' := bits + ToBits(s, 6);
            if numBits + 6 >= 8
            then Holds(bits', bytes + [ByteAt(acc, numBits - 2)], acc, numBits - 2)
            else Holds(bits', bytes, acc, numBits + 6)
  {
    MaskedStep(bits, accumulated, s);
    HoldsMore(bits, ToBits(s, 6), bytes, numBits, (accumulated * 64 + s) % 0x10000);
  }

  lemma HoldsMore(bits: seq<bool>, six: seq<bool>, bytes: seq<Byte>, numBits: nat, acc: nat)
    requires |six| == 6 && numBits < 8 && |bits| == 8 * |bytes| + numBits && bytes == Octets(bits)
    requires acc == Value(Last(bits + six, 16))
    ensures if numBits + 6 >= 8
            then Holds(bits + six, bytes + [ByteAt(acc, numBits - 2)], acc, numBits - 2)
            else Holds(bits + six, bytes, acc, numBits + 6)
  {
    forall k: nat | k < |bytes| ensures Octet(bits + six, k) == bytes[k] {
      SameOctets(bits, six, k);
    }
    if numBits + 6 >= 8 {
      NextByte(bits + six, |bytes|, numBits - 2);
      OctetsAre(bits + six, bytes + [ByteAt(acc, numBits - 2)]);
    } else {
      OctetsAre(bits + six, bytes);
    }
  }

  lemma OctetsAre(bits: seq<bool>, bytes: seq<Byte>)
    requires 8 * |bytes| <= |bits| < 8 * |bytes| + 8
    requires forall k: nat :: k < |bytes| ==> Octet(bits, k) == bytes[k]
    ensures Octets(bits) == bytes
  {
  }

  lemma PaddedWellFormed(stripped: string)
    requires WellFormed(stripped)
    ensures WellFormed(stripped + ['='])
  {
    var longer := stripped + ['='];
    assert longer[|stripped|] == '=' && forall i :: 0 <= i < |stripped| ==> longer[i] == stripped[i];
  }

  lemma StaysWellFormed(stripped: string, c: char)
    requires c != '=' && WellFormed(stripped)
    ensures WellFormed(stripped + [c]) <==> '=' !in stripped && ToSextet(c).Some?
  {
    var longer := stripped + [c];
    assert longer[|stripped|] == c;
    assert forall i :: 0 <= i < |stripped| ==> longer[i] == stripped[i];
  }

  lemma {:induction false} IllFormedStays(text: string, k: nat)
    requires k <= |text| && !WellFormed(Strip(text[..k]))
    ensures !WellFormed(Strip(text))
    decreases |text| - k
  {
    if k == |text| {
      assert text[..k] == text;
    } else {
      assert text[..k + 1][..k] == text[..k];
      var shorter, longer := Strip(text[..k]), Strip(text[..k + 1]);
      assert forall i :: 0 <= i < |shorter| ==> shorter[i] == longer[i];
      IllFormedStays(text, k + 1);
    }
  }

  // --------------------------------------------------------------- the encoder

  function ByteBits(bytes: seq<Byte>): (r: seq<bool>)
    ensures |r| == 8 * |bytes|
  {
    if bytes == [] then []
    else ByteBits(bytes[..|bytes| - 1]) + ToBits(bytes[|bytes| - 1], 8)
  }

  /** Zero bits, as many as it takes to make the bits of `n` bytes a multiple of six. */
  function Filler(n: nat): (r: seq<bool>)
    ensures |r| in {0, 2, 4} && (8 * n + |r|) % 6 == 0
  {
    FillerSize(n);
    seq(if n % 3 == 0 then 0 else if n % 3 == 1 then 4 else 2, _ => false)
  }

  lemma FillerSize(n: nat)
    ensures (8 * n + if n % 3 == 0 then 0 else if n % 3 == 1 then 4 else 2) % 6 == 0
  {
    var q, r := n / 3, n % 3;
    assert n == 3 * q + r;
    var k := if r == 0 then 0 else if r == 1 then 4 else 2;
    assert 8 * n + k == 6 * (4 * q + if r == 0 then 0 else if r == 1 then 2 else 3);
  }

  function SextetAt(bits: seq<bool>, k: nat): Sextet
    requires 6 * (k + 1) <= |bits|
  {
    ScaleSmall(1);
    Value(bits[6 * k..6 * k + 6])
  }

  /** Bits cut into sixes. */
  function Sixes(bits: seq<bool>): (r: seq<Sextet>)
    ensures |r| == |bits| / 6
    ensures forall k: nat :: k < |r| ==> r[k] == SextetAt(bits, k)
  {
    seq(|bits| / 6, k requires 0 <= k < |bits| / 6 => SextetAt(bits, k))
  }

  function Encoded(bytes: seq<Byte>): seq<Sextet> {
    Sixes(ByteBits(bytes) + Filler(|bytes|))
  }

  function Characters(sextets: seq<Sextet>): (r: string)
    ensures |r| == |sextets| && forall i :: 0 <= i < |r| ==> r[i] == ToChar(sextets[i])
  {
    seq(|sextets|, i requires 0 <= i < |sextets| => ToChar(sextets[i]))
  }

  /** The characters, and padding up to a multiple of four of them. */
  function Encode(bytes: seq<Byte>): string {
    Characters(Encoded(bytes)) + (if |bytes| % 3 == 0 then "" else if |bytes| % 3 == 1 then "==" else "=")
  }

  lemma SixesFront(bits: seq<bool>)
    requires |bits| % 6 == 0 && |bits| >= 6
    ensures Sixes(bits) == Sixes(bits[..|bits| - 6]) + [Value(bits[|bits| - 6..])]
  {
    var n := |bits| - 6;
    var front := bits[..n];
    forall k: nat | k < n / 6 ensures Sixes(bits)[k] == Sixes(front)[k] {
      assert bits[6 * k..6 * k + 6] == front[6 * k..6 * k + 6];
    }
    assert bits[6 * (n / 6)..6 * (n / 6) + 6] == bits[n..];
  }

  lemma {:induction false} BitsOfSixes(bits: seq<bool>)
    requires |bits| % 6 == 0
    ensures Bits(Sixes(bits)) == bits
  {
    if bits != [] {
      var n := |bits| - 6;
      var front, last := bits[..n], bits[n..];
      BitsOfSixes(front);
      SixesFront(bits);
      assert bits == front + last;
      ToBitsOfValue(last);
    }
  }

  lemma {:induction false} OctetOfByteBits(bytes: seq<Byte>, more: seq<bool>, k: nat)
    requires k < |bytes|
    ensures Octet(ByteBits(bytes) + more, k) == bytes[k]
  {
    var n := |bytes| - 1;
    var front, last := ByteBits(bytes[..n]), ToBits(bytes[n], 8);
    assert ByteBits(bytes) + more == front + (last + more);
    if k < n {
      OctetOfByteBits(bytes[..n], last + more, k);
    } else {
      assert (front + (last + more))[8 * k..8 * k + 8] == last;
      ScaleSmall(1);
      ValueOfToBits(bytes[n], 8);
    }
  }

  lemma OctetsOfEncoded(bytes: seq<Byte>)
    ensures Octets(Bits(Encoded(bytes))) == bytes
  {
    var bits := ByteBits(bytes) + Filler(|bytes|);
    BitsOfSixes(bits);
    forall k: nat | k < |bytes| ensures Octet(bits, k) == bytes[k] {
      OctetOfByteBits(bytes, Filler(|bytes|), k);
    }
  }

  lemma {:induction false} SextetsOfCharacters(sextets: seq<Sextet>)
    ensures Sextets(Characters(sextets)) == sextets
  {
    if sextets != [] {
      var n := |sextets| - 1;
      SextetsOfCharacters(sextets[..n]);
      assert Characters(sextets)[..n] == Characters(sextets[..n]);
      assert sextets == sextets[..n] + [sextets[n]];
    }
  }

  lemma PaddingIsNoSextet(stripped: string)
    ensures Sextets(stripped + "=") == Sextets(stripped)
    ensures Sextets(stripped + "==") == Sextets(stripped)
  {
    assert (stripped + "=")[..|stripped|] == stripped;
    assert (stripped + "==")[..|stripped| + 1] == stripped + "=";
  }

  lemma EncodeWellFormed(bytes: seq<Byte>)
    ensures WellFormed(Encode(bytes)) && Sextets(Encode(bytes)) == Encoded(bytes)
  {
    var sextets := Encoded(bytes);
    var characters := Characters(sextets);
    SextetsOfCharacters(sextets);
    PaddingIsNoSextet(characters);
    assert characters + "" == characters;
    assert forall i :: 0 <= i < |characters| ==> ToSextet(characters[i]).Some?;
  }

  // ------------------------------------------------------ texts, spelled out

  /** Space, tab, carriage return or line feed. */
  predicate IsBlank(c: char) { c == ' ' || c == '\t' || c == '\r' || c == '\n' }

  predicate IsLetter(c: char) {
    'A' <= c <= 'Z' || 'a' <= c <= 'z' || '0' <= c <= '9' || c == '+' || c == '/'
  }

  /** Letters, padding and blanks, with no letter behind padding. */
  ghost predicate Clean(text: string) {
    && (forall i :: 0 <= i < |text| ==> IsLetter(text[i]) || text[i] == '=' || IsBlank(text[i]))
    && (forall i, j :: 0 <= i < j < |text| && text[i] == '=' ==> !IsLetter(text[j]))
  }

  /** The code with blanks put into it. */
  predicate Spaced(text: string, code: string) {
    if text == "" then code == ""
    else
      var front, last := text[..|text| - 1], text[|text| - 1];
      || (IsBlank(last) && Spaced(front, code))
      || (code != "" && last == code[|code| - 1] && Spaced(front, code[..|code| - 1]))
  }

  lemma {:induction false} PaddingKept(text: string)
    ensures '=' in Strip(text) <==> '=' in text
  {
    if text != "" {
      var front, last := text[..|text| - 1], text[|text| - 1];
      PaddingKept(front);
      assert text == front + [last];
    }
  }

  lemma CleanNext(front: string, c: char)
    ensures Clean(front + [c]) <==>
              Clean(front) && (IsBlank(c) || c == '=' || (IsLetter(c) && '=' !in front))
  {
    var text := front + [c];
    assert text[|front|] == c;
    assert forall i :: 0 <= i < |front| ==> text[i] == front[i];
  }

  lemma WellFormedNext(front: string, c: char)
    ensures WellFormed(front + [c]) <==>
              WellFormed(front) && (c == '=' || (ToSextet(c).Some? && '=' !in front))
  {
    var text := front + [c];
    assert text[|front|] == c;
    assert forall i :: 0 <= i < |front| ==> text[i] == front[i];
  }

  /** A text decodes exactly if it is clean. */
  lemma {:induction false} DecodesExactlyIfClean(text: string)
    ensures Decoded(text).Some? <==> Clean(text)
  {
    if text != "" {
      var front, last := text[..|text| - 1], text[|text| - 1];
      DecodesExactlyIfClean(front);
      assert text == front + [last];
      CleanNext(front, last);
      WellFormedNext(Strip(front), last);
      PaddingKept(front);
    }
  }

  lemma {:induction false} StripSpaced(text: string, code: string)
    requires Spaced(text, code) && forall i :: 0 <= i < |code| ==> !IsBlank(code[i])
    ensures Strip(text) == code
  {
    if text != "" {
      var front, last := text[..|text| - 1], text[|text| - 1];
      if IsBlank(last) && Spaced(front, code) {
        StripSpaced(front, code);
      } else {
        StripSpaced(front, code[..|code| - 1]);
        assert code == code[..|code| - 1] + [last];
      }
    }
  }

  /** The alphabet of section 4 of RFC 4648. */
  const ALPHABET: string :=
    "ABCDEFGHIJKLMNOPQRSTUVWXYZ" + "abcdefghijklmnopqrstuvwxyz" + "0123456789" + "+/"

  lemma Alphabet(s: Sextet)
    ensures |ALPHABET| == 64 && ToChar(s) == ALPHABET[s]
  {
  }

  lemma EncodeHasNoBlanks(bytes: seq<Byte>, i: nat)
    requires i < |Encode(bytes)|
    ensures !IsBlank(Encode(bytes)[i])
  {
    EncodeWellFormed(bytes);
    assert Encode(bytes)[i] == '=' || ToSextet(Encode(bytes)[i]).Some?;
  }

  /** Decoding undoes encoding, wherever spaces, tabs and line ends are put into the text. */
  lemma RoundTrip(bytes: seq<Byte>, text: string)
    requires Spaced(text, Encode(bytes))
    ensures Decoded(text) == Some(bytes)
  {
    forall i | 0 <= i < |Encode(bytes)| ensures !IsBlank(Encode(bytes)[i]) { EncodeHasNoBlanks(bytes, i); }
    StripSpaced(text, Encode(bytes));
    EncodeWellFormed(bytes);
    OctetsOfEncoded(bytes);
  }
}
