/** What the text of a JSON value looks like: its separators, the order of its members, its numbers and its escape
    sequences, by RFC 8259 section 7. */
module JsonText {
  import opened Json
  import opened Ordering
  import opened Text

  /** The texts one after the other, with a separator between any two. */
  function Separated(texts: seq<string>, separator: string): string {
    if texts == [] then ""
    else if |texts| == 1 then texts[0]
    else texts[0] + separator + Separated(texts[1..], separator)
  }

  lemma SeparatedFirst(text: string, rest: seq<string>, separator: string)
    ensures Separated([text] + rest, separator) == if rest == [] then text else text + separator + Separated(rest, separator)
  {
    assert ([text] + rest)[1..] == rest;
  }

  // ---- Arrays and objects ----------------------------------------------------------------------

  function ItemTexts(items: seq<Json>, pad: string): seq<string> {
    seq(|items|, i requires 0 <= i < |items| => Print(items[i], pad))
  }

  /** A member is its quoted name, a colon, and its value. */
  function MemberTexts(v: Json, keys: seq<string>, pad: string): seq<string>
    requires v.Obj? && forall k | k in keys :: k in v.fields
  {
    seq(|keys|, i requires 0 <= i < |keys| => "\"" + Escape(keys[i]) + "\":" + pad + Print(v.fields[keys[i]], pad))
  }

  lemma {:induction false} ItemsFollow(v: Json, items: seq<Json>, pad: string)
    requires v.Arr? && (forall x | x in items :: x in v.items) && items != []
    ensures Print(items[0], pad) + PrintItems(v, items[1..], pad) == Separated(ItemTexts(items, pad), "," + pad) + "]"
    decreases |items|
  {
    hide Print;
    var rest := items[1..];
    assert ItemTexts(items, pad) == [Print(items[0], pad)] + ItemTexts(rest, pad);
    SeparatedFirst(Print(items[0], pad), ItemTexts(rest, pad), "," + pad);
    if rest != [] {
      ItemsFollow(v, rest, pad);
      assert rest[0] in v.items;
      var tail := Separated(ItemTexts(rest, pad), "," + pad);
      hide Separated, ItemTexts;
      assert PrintItems(v, rest, pad) == "," + pad + Print(rest[0], pad) + PrintItems(v, rest[1..], pad);
      assert PrintItems(v, rest, pad) == "," + pad + (tail + "]");
    }
  }

  lemma Joins(first: string, separator: string, tail: string, close: string)
    ensures first + (separator + (tail + close)) == (first + separator + tail) + close
  {
  }

  lemma {:induction false} FieldsFollow(v: Json, keys: seq<string>, pad: string)
    requires v.Obj? && (forall k | k in keys :: k in v.fields) && keys != []
    ensures PrintField(keys[0], Print(v.fields[keys[0]], pad), pad) + PrintFields(v, keys[1..], pad)
         == Separated(MemberTexts(v, keys, pad), "," + pad) + "}"
    decreases |keys|
  {
    hide Print;
    var rest, first := keys[1..], PrintField(keys[0], Print(v.fields[keys[0]], pad), pad);
    FieldMeans(keys[0], Print(v.fields[keys[0]], pad), pad);
    assert MemberTexts(v, keys, pad) == [first] + MemberTexts(v, rest, pad);
    hide PrintField;
    SeparatedFirst(first, MemberTexts(v, rest, pad), "," + pad);
    if rest != [] {
      FieldsFollow(v, rest, pad);
      hide MemberTexts, Separated;
      var tail := Separated(MemberTexts(v, rest, pad), "," + pad);
      Regroup("," + pad, PrintField(rest[0], Print(v.fields[rest[0]], pad), pad), PrintFields(v, rest[1..], pad));
      Joins(first, "," + pad, tail, "}");
    }
  }

  lemma FieldMeans(key: string, text: string, pad: string)
    ensures PrintField(key, text, pad) == "\"" + Escape(key) + "\":" + pad + text
  {
    var quoted := "\"" + Escape(key);
    assert quoted + "\"" + (":" + pad) + text == quoted + "\":" + pad + text;
  }

  /** The text of a value: the words for the constants, a number as it is, a quoted text, and items separated by
      commas. */
  lemma PrintMeans(v: Json, pad: string)
    ensures v.Null? ==> Print(v, pad) == "null"
    ensures v.Bool? ==> Print(v, pad) == if v.value then "true" else "false"
    ensures v.Num? ==> Print(v, pad) == v.text
    ensures v.Str? ==> Print(v, pad) == "\"" + Escape(v.chars) + "\""
    ensures v.Arr? ==> Print(v, pad) == "[" + Separated(ItemTexts(v.items, pad), "," + pad) + "]"
  {
    if v.Arr? {
      if v.items == [] {
        assert "[" + "" + "]" == "[" + "]";
      } else {
        ItemsFollow(v, v.items, pad);
        Regroup("[", Separated(ItemTexts(v.items, pad), "," + pad), "]");
      }
    }
  }

  /** The text of an object: its members separated by commas, in the order of their names. */
  lemma PrintObjectMeans(v: Json, pad: string)
    requires v.Obj?
    ensures Print(v, pad) == "{" + Separated(MemberTexts(v, SortedKeys(v.fields.Keys), pad), "," + pad) + "}"
  {
    var keys := SortedKeys(v.fields.Keys);
    if keys == [] {
      assert "{" + "" + "}" == "{" + "}";
    } else {
      FieldsFollow(v, keys, pad);
      Regroup("{", Separated(MemberTexts(v, keys, pad), "," + pad), "}");
    }
  }

  // ---- Numbers ---------------------------------------------------------------------------------

  predicate Digits(s: string) {
    s != "" && forall c | c in s :: '0' <= c <= '9'
  }

  /** `e` or `E`, a sign or none, and digits; or nothing. */
  predicate Exponent(s: string) {
    s == "" || ((s[0] == 'e' || s[0] == 'E')
                && (Digits(s[1..]) || (|s| > 1 && (s[1] == '+' || s[1] == '-') && Digits(s[2..]))))
  }

  /** A minus sign or none, an integer without a needless zero, a point and digits or nothing, and the exponent. */
  predicate Assembled(s: string, sign: string, digits: string, fraction: string, exponent: string) {
    && s == sign + (digits + (fraction + exponent)) && (sign == "" || sign == "-")
    && Digits(digits) && (digits[0] == '0' ==> digits == "0")
    && (fraction == "" || (fraction[0] == '.' && Digits(fraction[1..])))
    && Exponent(exponent)
  }

  lemma {:induction false} RunMeans(s: string)
    ensures var n := DigitRun(s);
            && (n > 0 ==> Digits(s[..n])) && (n < |s| ==> !IsDigit(s[n]))
  {
    if s != "" && IsDigit(s[0]) {
      RunMeans(s[1..]);
      var n := DigitRun(s);
      assert s[..n] == [s[0]] + s[1..][..n - 1];
    }
  }

  lemma {:induction false} RunOf(digits: string, rest: string)
    requires Digits(digits) && (rest == "" || !IsDigit(rest[0]))
    ensures DigitRun(digits + rest) == |digits|
  {
    assert digits[0] in digits && (digits + rest)[1..] == digits[1..] + rest;
    if |digits| > 1 {
      assert forall c | c in digits[1..] :: c in digits;
      RunOf(digits[1..], rest);
    } else {
      assert digits[1..] + rest == rest;
    }
  }

  lemma ExponentMeans(s: string)
    ensures IsExponent(s) <==> Exponent(s)
  {
    if s != "" {
      var power := if |s| > 1 && (s[1] == '+' || s[1] == '-') then s[2..] else s[1..];
      RunMeans(power);
      assert power[..|power|] == power;
      if Digits(power) {
        RunOf(power, "");
        assert power + "" == power;
      }
      if Digits(s[1..]) {
        assert s[1] in s[1..];
      }
    }
  }

  lemma FractionMeans(s: string)
    ensures IsFraction(s) <==>
      exists n :: 0 <= n <= |s| && (n == 0 || (s[0] == '.' && Digits(s[1..n]))) && Exponent(s[n..])
  {
    if s != "" && s[0] == '.' {
      var rest := s[1..];
      var run := DigitRun(rest);
      RunMeans(rest);
      ExponentMeans(rest[run..]);
      assert s[1..1 + run] == rest[..run] && s[1 + run..] == rest[run..];
      if n :| 0 <= n <= |s| && (n == 0 || (s[0] == '.' && Digits(s[1..n]))) && Exponent(s[n..]) {
        assert n > 0 && rest == s[1..n] + s[n..];
        RunOf(s[1..n], s[n..]);
      }
    } else {
      ExponentMeans(s);
      assert s[0..] == s;
    }
  }

  lemma Characters(s: string, sign: string, digits: string, fraction: string, exponent: string)
    requires Assembled(s, sign, digits, fraction, exponent)
    ensures forall c | c in s :: NumeralChar(c)
  {
    assert fraction != "" ==> fraction == [fraction[0]] + fraction[1..];
    assert exponent != "" ==> exponent == [exponent[0]] + exponent[1..];
    assert |exponent| > 1 ==> exponent == [exponent[0], exponent[1]] + exponent[2..];
  }

  /** The part of a number after its sign. */
  predicate Unsigned(s: string, digits: string, fraction: string, exponent: string) {
    && s == digits + (fraction + exponent) && Digits(digits) && (digits[0] == '0' ==> digits == "0")
    && (fraction == "" || (fraction[0] == '.' && Digits(fraction[1..]))) && Exponent(exponent)
  }

  lemma FractionTaken(tail: string) returns (fraction: string, exponent: string)
    requires IsFraction(tail)
    ensures tail == fraction + exponent && Exponent(exponent)
    ensures fraction == "" || (fraction[0] == '.' && Digits(fraction[1..]))
  {
    FractionMeans(tail);
    hide IsFraction, Exponent, Digits;
    var n :| 0 <= n <= |tail| && (n == 0 || (tail[0] == '.' && Digits(tail[1..n]))) && Exponent(tail[n..]);
    fraction, exponent := tail[..n], tail[n..];
    assert n > 0 ==> fraction[1..] == tail[1..n];
  }

  lemma TakenApart(s: string) returns (digits: string, fraction: string, exponent: string)
    requires var n := DigitRun(s); n > 0 && (s[0] == '0' ==> n == 1) && IsFraction(s[n..])
    ensures Unsigned(s, digits, fraction, exponent)
  {
    RunMeans(s);
    var n := DigitRun(s);
    hide DigitRun, IsFraction, Exponent, Digits;
    fraction, exponent := FractionTaken(s[n..]);
    digits := s[..n];
    assert digits + s[n..] == s;
  }

  lemma PutTogether(s: string, digits: string, fraction: string, exponent: string)
    requires Unsigned(s, digits, fraction, exponent)
    ensures DigitRun(s) == |digits| && IsFraction(s[|digits|..])
  {
    hide Exponent;
    var tail, n := fraction + exponent, |fraction|;
    assert tail == "" || !IsDigit(tail[0]) by { ExponentStart(exponent); }
    RunOf(digits, tail);
    hide Digits;
    assert s[|digits|..] == tail;
    assert tail[..n] == fraction && tail[n..] == exponent && (n > 0 ==> tail[1..n] == fraction[1..]);
    FractionMeans(tail);
  }

  lemma ExponentStart(s: string)
    requires Exponent(s)
    ensures s == "" || !IsDigit(s[0])
  {
  }

  lemma NumberTakenApart(s: string) returns (sign: string, digits: string, fraction: string, exponent: string)
    requires s != "" && IsNumber(s)
    ensures Assembled(s, sign, digits, fraction, exponent)
  {
    sign := if s[0] == '-' then "-" else "";
    assert s == sign + s[|sign|..];
    hide DigitRun, IsFraction, Exponent, Digits;
    digits, fraction, exponent := TakenApart(s[|sign|..]);
  }

  lemma NumberPutTogether(s: string, sign: string, digits: string, fraction: string, exponent: string)
    requires Assembled(s, sign, digits, fraction, exponent)
    ensures s != "" && IsNumber(s)
  {
    var rest := s[|sign|..];
    assert digits[0] in digits && rest == digits + (fraction + exponent) && rest[0] == digits[0];
    assert sign == "" ==> s[0] == digits[0];
    hide DigitRun, IsFraction, Exponent, Digits;
    PutTogether(rest, digits, fraction, exponent);
  }

  /** A numeral is a number as section 6 of RFC 8259 puts it together. */
  lemma NumeralMeans(s: string)
    ensures IsNumeral(s) <==> exists sign, digits, fraction, exponent :: Assembled(s, sign, digits, fraction, exponent)
  {
    hide Assembled, IsNumber, NumeralChar;
    if IsNumeral(s) {
      var sign, digits, fraction, exponent := NumberTakenApart(s);
    }
    if sign, digits, fraction, exponent :| Assembled(s, sign, digits, fraction, exponent) {
      Characters(s, sign, digits, fraction, exponent);
      NumberPutTogether(s, sign, digits, fraction, exponent);
    }
  }

  /** The value of a digit, decimal or hexadecimal. */
  function DigitValue(c: char): nat
    requires '0' <= c <= '9' || 'a' <= c <= 'f'
  {
    if c <= '9' then c as nat - '0' as nat else 10 + (c as nat - 'a' as nat)
  }

  predicate IsHex(s: string) {
    forall i | 0 <= i < |s| :: '0' <= s[i] <= '9' || 'a' <= s[i] <= 'f'
  }

  /** What the digits say in the given base, the first digit being the most significant. */
  function Reads(s: string, base: nat): nat
    requires IsHex(s)
  {
    if s == "" then 0 else base * Reads(s[..|s| - 1], base) + DigitValue(s[|s| - 1])
  }

  lemma DigitMeans(d: nat)
    requires d < 16
    ensures var c := HexDigit(d); ('0' <= c <= '9' || 'a' <= c <= 'f') && DigitValue(c) == d
  {
  }

  /** `str` of a number reads as the number, without a needless zero. */
  lemma {:induction false} DecimalMeans(n: nat)
    ensures IsHex(Decimal(n)) && Reads(Decimal(n), 10) == n
    ensures Decimal(n)[0] == '0' ==> Decimal(n) == "0"
  {
    DigitMeans(n % 10);
    if n >= 10 {
      DecimalMeans(n / 10);
      var text := Decimal(n);
      assert text[..|text| - 1] == Decimal(n / 10) && text[|text| - 1] == HexDigit(n % 10);
      assert text == Decimal(n / 10) + [HexDigit(n % 10)];
    } else {
      assert Decimal(n) == [HexDigit(n)] && Decimal(n)[..0] == "";
    }
  }

  lemma {:induction false} HexMeans(n: nat, width: nat)
    requires n < Power16(width)
    ensures IsHex(Hex(n, width)) && Reads(Hex(n, width), 16) == n
  {
    if width > 0 {
      HexMeans(n / 16, width - 1);
      DigitMeans(n % 16);
      var text := Hex(n, width);
      assert text[..width - 1] == Hex(n / 16, width - 1) && text[width - 1] == HexDigit(n % 16);
      assert text == Hex(n / 16, width - 1) + [HexDigit(n % 16)];
    }
  }

  // ---- Texts -----------------------------------------------------------------------------------

  /** "\\u" and four digits that say the code unit. */
  predicate IsUnit(s: string, unit: nat) {
    |s| == 6 && s[..2] == "\\u" && IsHex(s[2..]) && Reads(s[2..], 16) == unit
  }

  lemma UnitMeans(unit: nat)
    requires unit < 0x1_0000
    ensures IsUnit("\\u" + Hex(unit, 4), unit)
  {
    assert Power16(4) == 16 * Power16(3) && Power16(3) == 16 * Power16(2) && Power16(2) == 16 * Power16(1);
    assert Power16(1) == 16 * Power16(0);
    HexMeans(unit, 4);
    assert ("\\u" + Hex(unit, 4))[2..] == Hex(unit, 4);
  }

  /** How a character of a text is written: the two-character escapes, a printable character as itself, and any other by
      its code unit or its surrogate pair. */
  lemma EscapeMeans(c: char)
    ensures c == '"' ==> EscapeChar(c) == "\\\""
    ensures c == '\\' ==> EscapeChar(c) == "\\\\"
    ensures c == '\n' ==> EscapeChar(c) == "\\n"
    ensures c == '\r' ==> EscapeChar(c) == "\\r"
    ensures c == '\t' ==> EscapeChar(c) == "\\t"
    ensures c as nat == 8 ==> EscapeChar(c) == "\\b"
    ensures c as nat == 12 ==> EscapeChar(c) == "\\f"
    ensures ' ' <= c <= '~' && c != '"' && c != '\\' ==> EscapeChar(c) == [c]
    ensures !(' ' <= c <= '~') && c !in "\n\r\t" && c as nat != 8 && c as nat != 12 ==>
      if c as nat < 0x1_0000 then IsUnit(EscapeChar(c), c as nat)
      else
        && |EscapeChar(c)| == 12
        && IsUnit(EscapeChar(c)[..6], 0xD800 + (c as nat - 0x1_0000) / 0x400)
        && IsUnit(EscapeChar(c)[6..], 0xDC00 + (c as nat - 0x1_0000) % 0x400)
  {
    hide Hex, IsUnit;
    if !(' ' <= c <= '~') && c !in "\n\r\t" && c as nat != 8 && c as nat != 12 {
      UnitMeans(LeadUnit(c));
      assert EscapeChar(c) == "\\u" + Hex(LeadUnit(c), 4) + AfterLead(c);
      if c as nat >= 0x1_0000 {
        UnitMeans(0xDC00 + (c as nat - 0x1_0000) % 0x400);
        assert EscapeChar(c)[..6] == "\\u" + Hex(LeadUnit(c), 4) && EscapeChar(c)[6..] == AfterLead(c);
      } else {
        assert EscapeChar(c) == "\\u" + Hex(LeadUnit(c), 4);
      }
    }
  }
}
