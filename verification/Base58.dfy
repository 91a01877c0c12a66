/** Printing numbers: both base-58 encoders and the SD path builder. */
module Base58 {
  const ALPHABET := "123456789abcdefghijk" + "mnopqrstuvwxyz" + "ABCDEFGHJKLMNPQRSTUVWXYZ"

  // The value of a symbol in the alphabet, which leaves out 0, l, I and O.
  function DigitOf(c: char): int {
    if '1' <= c <= '9' then c as int - '1' as int
    else if 'a' <= c <= 'k' then c as int - 'a' as int + 9
    else if 'm' <= c <= 'z' then c as int - 'm' as int + 20
    else if 'A' <= c <= 'H' then c as int - 'A' as int + 34
    else if 'J' <= c <= 'N' then c as int - 'J' as int + 42
    else if 'P' <= c <= 'Z' then c as int - 'P' as int + 47
    else -1
  }

  function SymbolOf(d: nat): char
    requires d < 58
  {
    if d < 9 then ('1' as int + d) as char
    else if d < 20 then ('a' as int + d - 9) as char
    else if d < 34 then ('m' as int + d - 20) as char
    else if d < 42 then ('A' as int + d - 34) as char
    else if d < 47 then ('J' as int + d - 42) as char
    else ('P' as int + d - 47) as char
  }

  lemma AlphabetIs(d: nat)
    requires d < 58
    ensures |ALPHABET| == 58 && ALPHABET[d] == SymbolOf(d)
  {
    if d < 20 {
      assert "123456789abcdefghijk"[d] == SymbolOf(d);
    } else if d < 34 {
      assert "mnopqrstuvwxyz"[d - 20] == SymbolOf(d);
    } else {
      assert "ABCDEFGHJKLMNPQRSTUVWXYZ"[d - 34] == SymbolOf(d);
    }
  }

  lemma SymbolValue(d: nat)
    requires d < 58
    ensures |ALPHABET| == 58 && DigitOf(ALPHABET[d]) == d
  {
    AlphabetIs(d);
  }

  // ----- Encoding -------------------------------------------------------------------------------------------

  function Encode(value: nat): (digits: string)
    ensures |digits| > 0
  {
    AlphabetSize();
    if value < 58 then [ALPHABET[value]] else Encode(value / 58) + [ALPHABET[value % 58]]
  }

  lemma AlphabetSize()
    ensures |ALPHABET| == 58
  {}

  // Reading the digits in base 58.
  function Decode(digits: string): int
    decreases |digits|
  {
    if digits == [] then 0 else 58 * Decode(digits[..|digits| - 1]) + DigitOf(digits[|digits| - 1])
  }

  lemma {:induction false} RoundTrip(value: nat)
    ensures Decode(Encode(value)) == value
    decreases value
  {
    hide ALPHABET;
    SymbolValue(value % 58);
    if value < 58 {
      SymbolValue(value);
      assert Encode(value)[..0] == [];
    } else {
      RoundTrip(value / 58);
      var front := Encode(value / 58);
      assert Encode(value)[..|front|] == front;
    }
  }

  function Power(k: nat): nat { if k == 0 then 1 else 58 * Power(k - 1) }

  lemma {:induction false} LengthBound(value: nat, k: nat)
    requires value < Power(k) && k > 0
    ensures |Encode(value)| <= k
    decreases k
  {
    hide ALPHABET;
    if value >= 58 {
      LengthBound(value / 58, k - 1);
    }
  }

  // A 32-bit number has at most six digits.
  lemma {:induction false} AtMostSixDigits(value: nat)
    requires value < 0x1_0000_0000
    ensures |Encode(value)| <= 6
  {
    hide ALPHABET, Encode;
    assert Power(3) == 195112;
    assert Power(6) == 195112 * 195112;
    LengthBound(value, 6);
  }

  // All digits are symbols of the alphabet.
  lemma {:induction false} DigitsAreSymbols(value: nat)
    ensures forall i :: 0 <= i < |Encode(value)| ==> DigitOf(Encode(value)[i]) >= 0
  {
    hide ALPHABET;
    SymbolValue(value % 58);
    if value < 58 {
      SymbolValue(value);
    } else {
      DigitsAreSymbols(value / 58);
    }
  }

  function Reverse(s: string): (r: string)
    ensures |r| == |s| && forall i :: 0 <= i < |s| ==> r[i] == s[|s| - 1 - i]
  {
    if s == [] then [] else Reverse(s[1..]) + [s[0]]
  }

  // The digit loop that both encoders share: digits from the lowest up, at most seven of them.
  method Digits(value: nat, reverseStr: array<char>) returns (i: nat)
    requires value < 0x1_0000_0000 && reverseStr.Length >= 7
    modifies reverseStr
    ensures i + 1 == |Encode(value)| <= 6
    ensures Reverse(reverseStr[..i + 1]) == Encode(value)
  {
    hide Encode, ALPHABET, Reverse;
    AlphabetSize();
    AtMostSixDigits(value);
    var rest: nat := value;
    i := 0;
    ghost var low: string := "";
    while rest >= 58
      invariant i == |low| <= 5 && low == Reverse(reverseStr[..i]) && Encode(rest) + low == Encode(value)
    {
      EncodeStep(rest);
      ghost var before := reverseStr[..i];
      reverseStr[i] := ALPHABET[rest % 58];
      ReverseOne(before, reverseStr[i]);
      assert reverseStr[..i + 1] == before + [reverseStr[i]];
      assert Encode(rest / 58) + ([ALPHABET[rest % 58]] + low) == Encode(rest) + low;
      low := [ALPHABET[rest % 58]] + low;
      rest := rest / 58;
      i := i + 1;
    }
    EncodeStep(rest);
    ghost var before := reverseStr[..i];
    reverseStr[i] := ALPHABET[rest];
    ReverseOne(before, reverseStr[i]);
    assert reverseStr[..i + 1] == before + [reverseStr[i]];
  }

  lemma EncodeStep(value: nat)
    ensures |ALPHABET| == 58 && |Encode(value)| > 0
    ensures Encode(value) == if value < 58 then [ALPHABET[value]] else Encode(value / 58) + [ALPHABET[value % 58]]
  {
    AlphabetSize();
  }

  lemma {:induction false} ReverseOne(s: string, c: char)
    ensures Reverse(s + [c]) == [c] + Reverse(s)
  {
    var r, t := Reverse(s + [c]), [c] + Reverse(s);
    assert |r| == |t| && forall i :: 0 <= i < |r| ==> r[i] == t[i];
  }

  // tfp_uid_uint32_to_base58 pads with zeros.
  method TfpUidToBase58(value: nat, str: array<char>)
    requires value < 0x1_0000_0000 && str.Length == 8
    modifies str
    ensures |Encode(value)| <= 6 && str[..|Encode(value)|] == Encode(value)
    ensures forall k :: |Encode(value)| <= k < 8 ==> str[k] == '\0'
  {
    hide Encode;
    var reverseStr := new char[8](i => '\0');
    var i := Digits(value, reverseStr);
    ghost var reversed := reverseStr[..i + 1];
    for j := 0 to i + 1
      invariant reverseStr[..i + 1] == reversed
      invariant forall k :: 0 <= k < j ==> str[k] == reversed[i - k]
    {
      str[j] := reverseStr[i - j];
    }
    for j := i + 1 to 8
      invariant forall k :: 0 <= k < i + 1 ==> str[k] == reversed[i - k]
      invariant forall k :: i + 1 <= k < j ==> str[k] == '\0'
    {
      str[j] := '\0';
    }
    assert str[..i + 1] == Encode(value);
  }

  // base58_encode writes from a position on and returns the end.
  method Base58Encode(value: nat, str: array<char>, at: nat) returns (end: nat)
    requires value < 0x1_0000_0000 && at + 6 <= str.Length
    modifies str
    ensures end == at + |Encode(value)| <= at + 6 && str[at..end] == Encode(value)
    ensures str[..at] == old(str[..at]) && str[end..] == old(str[end..])
  {
    hide Encode;
    var reverseStr := new char[7](i => '\0');
    var i := Digits(value, reverseStr);
    ghost var reversed := reverseStr[..i + 1];
    for k := 0 to i + 1
      invariant reverseStr[..i + 1] == reversed
      invariant forall m :: at <= m < at + k ==> str[m] == reversed[i - (m - at)]
      invariant str[..at] == old(str[..at]) && str[at + i + 1..] == old(str[at + i + 1..])
    {
      str[at + k] := reverseStr[i - k];
    }
    end := at + i + 1;
    assert str[at..end] == Encode(value);
  }
}
